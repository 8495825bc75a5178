/** What is written is read back, and what the cache codec of RedisService therefore preserves. */
module JsonRoundTrip {
  import opened Wrappers
  import opened Json

  /** What JavaScript can hold: the keys of an object differ, and a number with a fraction or exponent is one. */
  predicate Valid(v: Value) {
    match v
    case Decimal(text) => ReadNumber(text) == Got(Decimal(text), "")
    case Arr(items) => forall i | 0 <= i < |items| :: Valid(items[i])
    case Obj(members) =>
      && (forall i | 0 <= i < |members| :: Valid(members[i].value))
      && DistinctKeys(members)
    case _ => true
  }

  predicate DistinctKeys(members: seq<Member>) {
    forall i, j | 0 <= i < j < |members| :: members[i].key != members[j].key
  }

  /** Texts that can follow a value. */
  predicate Delimits(rest: string) {
    rest == "" || IsSpace(rest[0]) || rest[0] == ',' || rest[0] == ']' || rest[0] == '}'
  }

  // -------------------------------------------------------------------------------------------
  // Numbers.

  predicate NoDigit(rest: string) {
    rest == "" || !IsDigit(rest[0])
  }

  lemma {:induction false} TakeExtends(s: string, rest: string)
    requires NoDigit(rest)
    ensures TakeDigits(s + rest) == (TakeDigits(s).0, TakeDigits(s).1 + rest)
  {
    if s == "" {
      assert s + rest == rest;
    } else if IsDigit(s[0]) {
      assert (s + rest)[1..] == s[1..] + rest;
      TakeExtends(s[1..], rest);
    }
  }

  lemma {:induction false} IntegerExtends(s: string, rest: string)
    requires Delimits(rest) && ReadInteger(s).Got?
    ensures ReadInteger(s + rest) == Got(ReadInteger(s).value, ReadInteger(s).rest + rest)
  {
    TakeExtends(s, rest);
    assert (s + rest)[1..] == s[1..] + rest;
  }

  lemma {:induction false} FractionExtends(s: string, rest: string)
    requires Delimits(rest) && ReadFraction(s).Got?
    ensures ReadFraction(s + rest) == Got(ReadFraction(s).value, ReadFraction(s).rest + rest)
  {
    if s == "" {
      assert s + rest == rest;
    } else {
      assert (s + rest)[1..] == s[1..] + rest;
      TakeExtends(s[1..], rest);
    }
  }

  lemma {:induction false} PowerExtends(s: string, rest: string)
    requires Delimits(rest) && ReadPower(s).Got?
    ensures ReadPower(s + rest) == Got(ReadPower(s).value, ReadPower(s).rest + rest)
  {
    assert s != "" by { assert ReadPower(s).value != ""; }
    var n := if s[0] in "+-" then 1 else 0;
    assert (s + rest)[n..] == s[n..] + rest;
    TakeExtends(s[n..], rest);
  }

  lemma {:induction false} ExponentExtends(s: string, rest: string)
    requires Delimits(rest) && ReadExponent(s).Got?
    ensures ReadExponent(s + rest) == Got(ReadExponent(s).value, ReadExponent(s).rest + rest)
  {
    if s == "" {
      assert s + rest == rest;
    } else if s[0] in "eE" {
      assert (s + rest)[1..] == s[1..] + rest;
      PowerExtends(s[1..], rest);
    }
  }

  lemma {:induction false} AfterIntegerExtends(sign: string, whole: string, s: string, rest: string)
    requires Delimits(rest) && (forall c | c in whole :: IsDigit(c)) && AfterInteger(sign, whole, s).Got?
    ensures AfterInteger(sign, whole, s + rest)
         == Got(AfterInteger(sign, whole, s).value, AfterInteger(sign, whole, s).rest + rest)
  {
    FractionExtends(s, rest);
    ExponentExtends(ReadFraction(s).rest, rest);
  }

  lemma {:induction false} SignStays(s: string, rest: string)
    requires s != ""
    ensures Sign(s + rest) == Sign(s) && (s + rest)[|Sign(s)|..] == s[|Sign(s)|..] + rest
  {
    assert (s + rest)[0] == s[0];
  }

  lemma {:induction false} NumberExtends(s: string, rest: string)
    requires Delimits(rest) && ReadNumber(s).Got?
    ensures ReadNumber(s + rest) == Got(ReadNumber(s).value, ReadNumber(s).rest + rest)
  {
    NumberStarts(s);
    SignStays(s, rest);
    var unsigned := s[|Sign(s)|..];
    var whole := ReadInteger(unsigned);
    IntegerExtends(unsigned, rest);
    AfterIntegerExtends(Sign(s), whole.value, whole.rest, rest);
  }

  lemma {:induction false} NumberStarts(s: string)
    requires ReadNumber(s).Got?
    ensures s != "" && (s[0] == '-' || IsDigit(s[0]))
  {
    assert ReadInteger(s[|Sign(s)|..]).Got?;
    if Sign(s) == "" {
      assert s[0..] == s;
    }
  }

  lemma {:induction false} DigitsRead(n: nat)
    ensures Digits(n) != "" && (forall c | c in Digits(n) :: IsDigit(c)) && DigitsValue(Digits(n)) == n
    ensures Digits(n)[0] == '0' <==> n == 0
  {
    if n < 10 {
      assert DigitsValue([Digit(n)]) == DigitsValue("") * 10 + n by {
        assert [Digit(n)][..0] == "";
      }
    } else {
      DigitsRead(n / 10);
      assert Digits(n)[..|Digits(n)| - 1] == Digits(n / 10);
    }
  }

  lemma {:induction false} TakeAll(ds: string)
    requires forall c | c in ds :: IsDigit(c)
    ensures TakeDigits(ds) == (ds, "")
  {
    if ds != "" {
      TakeAll(ds[1..]);
      assert [ds[0]] + ds[1..] == ds;
    }
  }

  lemma {:induction false} DigitsAreAnInteger(n: nat)
    ensures ReadInteger(Digits(n)) == Got(Digits(n), "") && IsDigit(Digits(n)[0])
  {
    DigitsRead(n);
    TakeAll(Digits(n));
    assert Digits(n)[0] in Digits(n);
    if n == 0 {
      assert Digits(0) == "0" && "0"[1..] == "";
    }
  }

  lemma {:induction false} IntegerReads(n: int)
    ensures ReadNumber(IntText(n)) == Got(Num(n), "")
  {
    var abs := if n < 0 then -n else n;
    var sign := if n < 0 then "-" else "";
    DigitsRead(abs);
    DigitsAreAnInteger(abs);
    assert IntText(n) == sign + Digits(abs) && IntText(n)[|sign|..] == Digits(abs);
    assert ReadFraction("") == Got("", "") && ReadExponent("") == Got("", "");
    assert AfterInteger(sign, Digits(abs), "") == Got(Num(n), "");
  }

  // -------------------------------------------------------------------------------------------
  // Strings.

  lemma {:induction false} HexReads(d: nat)
    requires d < 16
    ensures HexValue(HexDigit(d)) == Some(d)
  {
  }

  lemma {:induction false} ControlReads(c: char, t: string)
    requires c < ' '
    ensures var e := "u00" + [HexDigit(c as int / 16), HexDigit(c as int % 16)];
            ReadEscape(e + t) == Got(c, t)
  {
    var hex := "00" + [HexDigit(c as int / 16), HexDigit(c as int % 16)];
    HexReads(c as int / 16);
    HexReads(c as int % 16);
    assert HexValue('0') == Some(0);
    assert ("u" + hex + t)[1..] == hex + t;
    assert HexUnit(hex + t) == Some(c as nat);
    assert (hex + t)[4..] == t;
    assert "u00" + [HexDigit(c as int / 16), HexDigit(c as int % 16)] + t == "u" + hex + t;
  }

  lemma {:induction false} EscapeReads(c: char, t: string)
    requires ReadString(t).Got?
    ensures ReadString(Escape(c) + t) == Got([c] + ReadString(t).value, ReadString(t).rest)
  {
    var e := Escape(c);
    if e == [c] {
      assert (e + t)[1..] == t;
    } else {
      assert e[0] == '\\' && (e + t)[1..] == e[1..] + t;
      if |e| == 2 {
        assert (e[1..] + t)[1..] == t;
      } else {
        assert e[1..] == "u00" + [HexDigit(c as int / 16), HexDigit(c as int % 16)];
        ControlReads(c, t);
      }
    }
  }

  lemma {:induction false} EscapesText(s: string, tail: string)
    requires s != ""
    ensures Escapes(s) + tail == Escape(s[0]) + (Escapes(s[1..]) + tail)
  {
  }

  lemma {:induction false} QuoteEnds(rest: string)
    ensures ReadString("\"" + rest) == Got("", rest)
  {
    assert ("\"" + rest)[1..] == rest;
  }

  lemma {:induction false} EscapesRead(s: string, rest: string)
    ensures ReadString(Escapes(s) + ("\"" + rest)) == Got(s, rest)
  {
    var tail := "\"" + rest;
    if s == "" {
      QuoteEnds(rest);
      assert "" + tail == tail;
    } else {
      EscapesRead(s[1..], rest);
      EscapesText(s, tail);
      EscapeReads(s[0], Escapes(s[1..]) + tail);
      assert [s[0]] + s[1..] == s;
    }
  }

  lemma {:induction false} QuoteReads(s: string, rest: string)
    ensures Starts(Quote(s) + rest, '"') && ReadString((Quote(s) + rest)[1..]) == Got(s, rest)
  {
    assert (Quote(s) + rest)[1..] == Escapes(s) + ("\"" + rest);
    EscapesRead(s, rest);
  }

  // -------------------------------------------------------------------------------------------
  // Values.

  predicate StartsValue(s: string) {
    s != "" && !IsSpace(s[0]) && s[0] != ']' && s[0] != '}'
  }

  /** The first character of a printed value is no space and no closing bracket. */
  lemma {:induction false} PrintStarts(v: Value)
    requires v.Decimal? ==> ReadNumber(v.text).Got?
    ensures StartsValue(Print(v))
  {
    if v.Num? || v.Decimal? {
      NumberPrintStarts(v);
    }
  }

  lemma {:induction false} NumberPrintStarts(v: Value)
    requires v.Num? || (v.Decimal? && ReadNumber(v.text).Got?)
    ensures Print(v) != "" && (Print(v)[0] == '-' || IsDigit(Print(v)[0]))
  {
    if v.Num? {
      DigitsAreAnInteger(if v.n < 0 then -v.n else v.n);
    } else {
      NumberStarts(v.text);
    }
  }

  /** What a text begins with decides which of the three words it can begin with. */
  lemma {:induction false} WordHeads(s: string)
    ensures "null" <= s ==> Starts(s, 'n')
    ensures "true" <= s ==> Starts(s, 't')
    ensures "false" <= s ==> Starts(s, 'f')
  {
    assert "null"[0] == 'n' && "true"[0] == 't' && "false"[0] == 'f';
  }

  lemma {:induction false} ReadsANumber(s: string)
    requires s != "" && (s[0] == '-' || IsDigit(s[0]))
    ensures ReadValue(s) == ReadNumber(s)
  {
    assert !("null" <= s) && !("true" <= s) && !("false" <= s) by { WordHeads(s); }
    assert !Starts(s, '"') && !Starts(s, '[') && !Starts(s, '{');
  }

  /** A text that begins with a quote or a bracket is none of the three words. */
  lemma {:induction false} ReadsNoWord(s: string)
    requires Starts(s, '"') || Starts(s, '[') || Starts(s, '{')
    ensures !("null" <= s) && !("true" <= s) && !("false" <= s)
  {
    WordHeads(s);
  }

  lemma {:induction false} WordReads(v: Value, rest: string)
    requires v.Null? || v.Bool?
    ensures ReadValue(Print(v) + rest) == Got(v, rest)
  {
    var s := Print(v) + rest;
    assert s[|Print(v)|..] == rest;
    assert Print(v) <= s;
    assert s[0] == Print(v)[0];
    assert "null"[0] == 'n' && "true"[0] == 't' && "false"[0] == 'f';
  }

  lemma {:induction false} NumberReads(v: Value, rest: string)
    requires (v.Num? || v.Decimal?) && Valid(v) && Delimits(rest)
    ensures ReadValue(Print(v) + rest) == Got(v, rest)
  {
    NumberPrintStarts(v);
    ReadsANumber(Print(v) + rest);
    if v.Num? { IntegerReads(v.n); }
    NumberExtends(Print(v), rest);
    assert "" + rest == rest;
  }

  lemma {:induction false} PrintReads(v: Value, rest: string)
    requires Valid(v) && Delimits(rest)
    ensures ReadValue(Print(v) + rest) == Got(v, rest)
    decreases v, 1
  {
    match v {
      case Null => WordReads(v, rest);
      case Bool(_) => WordReads(v, rest);
      case Num(_) => NumberReads(v, rest);
      case Decimal(_) => NumberReads(v, rest);
      case Str(x) =>
        QuoteReads(x, rest);
        ReadsNoWord(Print(v) + rest);
      case Arr(items) =>
        if items != [] {
          ItemsRead(items, rest);
          PrintStarts(items[0]);
        }
        ArrayReads(items, rest);
      case Obj(members) =>
        if members != [] {
          MembersRead(members, rest);
          MembersStart(members);
        }
        ObjectReads(members, rest);
    }
  }

  lemma {:induction false} BracketReads(inner: string, items: seq<Value>, rest: string)
    requires Skip(inner) == inner
    requires if Starts(inner, ']') then items == [] && inner[1..] == rest else ReadItems(inner) == Got(items, rest)
    ensures ReadValue("[" + inner) == Got(Arr(items), rest)
  {
    ReadsNoWord("[" + inner);
    assert ("[" + inner)[1..] == inner;
  }

  lemma {:induction false} ArrayReads(items: seq<Value>, rest: string)
    requires items != [] ==> ReadItems(PrintItems(items) + rest) == Got(items, rest)
    requires items != [] ==> StartsValue(PrintItems(items))
    ensures ReadValue(Print(Arr(items)) + rest) == Got(Arr(items), rest)
  {
    var inner := if items == [] then "]" + rest else PrintItems(items) + rest;
    assert Print(Arr(items)) + rest == "[" + inner;
    if items == [] { assert inner[1..] == rest; }
    BracketReads(inner, items, rest);
  }

  lemma {:induction false} BraceReads(inner: string, members: seq<Member>, rest: string)
    requires Skip(inner) == inner
    requires if Starts(inner, '}') then members == [] && inner[1..] == rest else ReadMembers(inner) == Got(members, rest)
    ensures ReadValue("{" + inner) == Got(Obj(members), rest)
  {
    ReadsNoWord("{" + inner);
    assert ("{" + inner)[1..] == inner;
  }

  lemma {:induction false} ObjectReads(members: seq<Member>, rest: string)
    requires members != [] ==> ReadMembers(PrintMembers(members) + rest) == Got(members, rest)
    requires members != [] ==> StartsValue(PrintMembers(members))
    ensures ReadValue(Print(Obj(members)) + rest) == Got(Obj(members), rest)
  {
    var inner := if members == [] then "}" + rest else PrintMembers(members) + rest;
    assert Print(Obj(members)) + rest == "{" + inner;
    if members == [] { assert inner[1..] == rest; }
    BraceReads(inner, members, rest);
  }

  lemma {:induction false} LastItem(s: string, v: Value, rest: string)
    requires ReadValue(s) == Got(v, "]" + rest)
    ensures ReadItems(s) == Got([v], rest)
  {
    assert ("]" + rest)[1..] == rest && Skip("]" + rest) == "]" + rest;
  }

  lemma {:induction false} EarlierItem(s: string, v: Value, more: string, later: seq<Value>, rest: string)
    requires ReadValue(s) == Got(v, "," + more) && StartsValue(more) && ReadItems(more) == Got(later, rest)
    ensures ReadItems(s) == Got([v] + later, rest)
  {
    assert ("," + more)[1..] == more && Skip("," + more) == "," + more && Skip(more) == more;
  }

  lemma {:induction false} ItemsText(items: seq<Value>, rest: string)
    requires items != []
    ensures PrintItems(items) + rest
         == Print(items[0]) + if |items| == 1 then "]" + rest else "," + (PrintItems(items[1..]) + rest)
  {
  }

  lemma {:induction false} ItemsRead(items: seq<Value>, rest: string)
    requires items != [] && forall i | 0 <= i < |items| :: Valid(items[i])
    ensures ReadItems(PrintItems(items) + rest) == Got(items, rest)
    decreases items, 0
  {
    var v, s := items[0], PrintItems(items) + rest;
    ItemsText(items, rest);
    if |items| == 1 {
      PrintReads(v, "]" + rest);
      LastItem(s, v, rest);
      assert items == [v];
    } else {
      var more := PrintItems(items[1..]) + rest;
      PrintReads(v, "," + more);
      ItemsRead(items[1..], rest);
      PrintStarts(items[1]);
      EarlierItem(s, v, more, items[1..], rest);
      assert items == [v] + items[1..];
    }
  }

  lemma {:induction false} MembersStart(members: seq<Member>)
    requires members != []
    ensures StartsValue(PrintMembers(members))
  {
    assert Quote(members[0].key)[0] == '"';
  }

  lemma {:induction false} LastMember(s: string, m: Member, rest: string)
    requires ReadMember(s) == Got(m, "}" + rest)
    ensures ReadMembers(s) == Got([m], rest)
  {
    assert ("}" + rest)[1..] == rest && Skip("}" + rest) == "}" + rest;
  }

  lemma {:induction false} EarlierMember(s: string, m: Member, more: string, later: seq<Member>, rest: string)
    requires ReadMember(s) == Got(m, "," + more) && StartsValue(more) && ReadMembers(more) == Got(later, rest)
    requires forall i | 0 <= i < |later| :: later[i].key != m.key
    ensures ReadMembers(s) == Got([m] + later, rest)
  {
    assert ("," + more)[1..] == more && Skip("," + more) == "," + more && Skip(more) == more;
  }

  lemma {:induction false} MembersText(members: seq<Member>, rest: string)
    requires members != []
    ensures PrintMembers(members) + rest
         == Quote(members[0].key) + (":" + (Print(members[0].value)
            + if |members| == 1 then "}" + rest else "," + (PrintMembers(members[1..]) + rest)))
  {
  }

  lemma {:induction false} OneMemberReads(m: Member, rest: string)
    requires StartsValue(Print(m.value)) && ReadValue(Print(m.value) + ("}" + rest)) == Got(m.value, "}" + rest)
    ensures ReadMembers(PrintMembers([m]) + rest) == Got([m], rest)
  {
    MembersText([m], rest);
    MemberReads(m, "}" + rest);
    LastMember(PrintMembers([m]) + rest, m, rest);
  }

  lemma {:induction false} MoreMembersRead(members: seq<Member>, rest: string, more: string)
    requires |members| > 1 && DistinctKeys(members) && more == PrintMembers(members[1..]) + rest
    requires StartsValue(Print(members[0].value))
    requires ReadValue(Print(members[0].value) + ("," + more)) == Got(members[0].value, "," + more)
    requires ReadMembers(more) == Got(members[1..], rest)
    ensures ReadMembers(PrintMembers(members) + rest) == Got(members, rest)
  {
    MembersText(members, rest);
    MemberReads(members[0], "," + more);
    TailDistinct(members);
    MembersStart(members[1..]);
    EarlierMember(PrintMembers(members) + rest, members[0], more, members[1..], rest);
    assert members == [members[0]] + members[1..];
  }

  lemma {:induction false} MembersRead(members: seq<Member>, rest: string)
    requires members != [] && DistinctKeys(members) && forall i | 0 <= i < |members| :: Valid(members[i].value)
    ensures ReadMembers(PrintMembers(members) + rest) == Got(members, rest)
    decreases members, 0
  {
    var m := members[0];
    PrintStarts(m.value);
    if |members| == 1 {
      PrintReads(m.value, "}" + rest);
      OneMemberReads(m, rest);
      assert members == [m];
    } else {
      var more := PrintMembers(members[1..]) + rest;
      PrintReads(m.value, "," + more);
      TailDistinct(members);
      MembersRead(members[1..], rest);
      MoreMembersRead(members, rest, more);
    }
  }

  lemma {:induction false} TailDistinct(members: seq<Member>)
    requires members != [] && DistinctKeys(members)
    ensures DistinctKeys(members[1..]) && forall i | 0 <= i < |members[1..]| :: members[1..][i].key != members[0].key
  {
    assert forall i | 0 <= i < |members[1..]| :: members[1..][i] == members[i + 1];
  }

  lemma {:induction false} MemberReads(m: Member, tail: string)
    requires StartsValue(Print(m.value)) && ReadValue(Print(m.value) + tail) == Got(m.value, tail)
    ensures ReadMember(Quote(m.key) + (":" + (Print(m.value) + tail))) == Got(m, tail)
  {
    var after := Print(m.value) + tail;
    QuoteReads(m.key, ":" + after);
    assert (":" + after)[1..] == after && Skip(after) == after && Skip(":" + after) == ":" + after;
  }

  /** Parsing undoes printing. */
  lemma {:induction false} ParsePrint(v: Value)
    requires Valid(v)
    ensures Parse(Print(v)) == Some(v)
  {
    PrintStarts(v);
    PrintReads(v, "");
    assert Print(v) + "" == Print(v);
  }

  /** No string is its own parse: a JSON text that denotes a string is longer than it. */
  lemma {:induction false} NoStringParsesToItself(s: string)
    ensures Parse(s) != Some(Str(s))
  {
  }

  /** `get` after `set` gives back any value that is no string, and a string exactly when it does not parse. */
  lemma {:induction false} CodecRoundTrip(v: Value)
    requires Valid(v)
    ensures Decode(Encode(v)) == v <==> (v.Str? ==> Parse(v.s).None?)
  {
    if v.Str? {
      NoStringParsesToItself(v.s);
    } else {
      ParsePrint(v);
    }
  }

  /** The simplest loss: the string "5" comes back as the number 5. */
  lemma {:induction false} DigitsComeBackAsNumber()
    ensures Decode(Encode(Str("5"))) == Num(5)
  {
    assert "5" == Digits(5) == IntText(5);
    ParsePrint(Num(5));
  }
}
