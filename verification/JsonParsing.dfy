/** `JSON.parse` accepts exactly the JSON texts, and reads each as what it means; and what that says of the codec. */
module JsonParsing {
  import opened Wrappers
  import opened Json
  import opened JsonGrammar
  import opened JsonRoundTrip

  // -------------------------------------------------------------------------------------------
  // Reading a number.

  lemma Regroup(d: nat, p: nat, n: nat, e: nat)
    ensures d * (10 * p) + (10 * n + e) == 10 * (d * p + n) + e
  {
  }

  lemma {:induction false} ValueOfAppend(ds: string, d: char)
    requires AllDigits(ds) && '0' <= d <= '9'
    ensures AllDigits(ds + [d]) && NumeralValue(ds + [d]) == 10 * NumeralValue(ds) + (d - '0') as nat
  {
    var all := ds + [d];
    if ds == "" {
      assert all == [d] && all[1..] == "";
      assert NumeralValue(all) == (d - '0') as nat * TenTo(0) + NumeralValue("");
    } else {
      assert all[1..] == ds[1..] + [d] && all[0] == ds[0];
      ValueOfAppend(ds[1..], d);
      assert TenTo(|all| - 1) == 10 * TenTo(|ds| - 1);
      Regroup((ds[0] - '0') as nat, TenTo(|ds| - 1), NumeralValue(ds[1..]), (d - '0') as nat);
    }
  }

  lemma {:induction false} SameValue(ds: string)
    requires AllDigits(ds)
    ensures (forall c | c in ds :: IsDigit(c)) && DigitsValue(ds) == NumeralValue(ds)
  {
    assert forall c | c in ds :: IsDigit(c);
    if ds != "" {
      var init, d := ds[..|ds| - 1], ds[|ds| - 1];
      assert ds == init + [d];
      SameValue(init);
      ValueOfAppend(init, d);
    }
  }

  /** Digits up to something that is none. */
  lemma {:induction false} TakesNumerals(ds: string, tail: string)
    requires Numerals(ds) && NoDigit(tail)
    ensures TakeDigits(ds + tail) == (ds, tail)
  {
    TakeAll(ds);
    TakeExtends(ds, tail);
    assert "" + tail == tail;
  }

  lemma {:induction false} ReadsPower(sign: string, digits: string)
    requires sign in {"", "+", "-"} && Numerals(digits)
    ensures ReadPower(sign + digits) == Got(sign + digits, "")
  {
    var power := sign + digits;
    assert power[|sign|..] == digits && digits + "" == digits;
    assert if sign == "" then power[0] == digits[0] else power[0] == sign[0];
    TakesNumerals(digits, "");
  }

  lemma {:induction false} ReadsExponent(exponent: Option<Exponent>)
    requires exponent.Some? ==> IsExponent(exponent.value)
    ensures ReadExponent(ExponentText(exponent)) == Got(ExponentText(exponent), "")
    ensures NoDigit(ExponentText(exponent)) && (ExponentText(exponent) == "" <==> exponent.None?)
    ensures exponent.Some? ==> ExponentText(exponent)[0] in {'e', 'E'}
  {
    if exponent.Some? {
      var e := exponent.value;
      ReadsPower(e.sign, e.digits);
      assert ([e.mark] + (e.sign + e.digits))[1..] == e.sign + e.digits;
    }
  }

  lemma {:induction false} ReadsFraction(fraction: Option<string>, tail: string)
    requires fraction.Some? ==> Numerals(fraction.value)
    requires tail == "" || tail[0] in {'e', 'E'}
    ensures ReadFraction(FractionText(fraction) + tail) == Got(FractionText(fraction), tail)
    ensures NoDigit(FractionText(fraction) + tail)
  {
    if fraction.Some? {
      var text := FractionText(fraction) + tail;
      assert text[0] == '.' && text[1..] == fraction.value + tail;
      TakesNumerals(fraction.value, tail);
    } else {
      assert "" + tail == tail;
    }
  }

  lemma {:induction false} ReadsWhole(whole: string, tail: string)
    requires Numerals(whole) && (whole[0] == '0' ==> whole == "0") && NoDigit(tail)
    ensures ReadInteger(whole + tail) == Got(whole, tail)
  {
    if whole == "0" {
      assert (whole + tail)[1..] == tail;
    } else {
      TakesNumerals(whole, tail);
    }
  }

  lemma {:induction false} Pieces(sign: string, whole: string, f: string, e: string)
    ensures sign + whole + f + e == sign + (whole + (f + e))
  {
  }

  lemma {:induction false} ReadsAfterWhole(t: Tree)
    requires IsTree(t) && t.TNumber? && forall c | c in t.whole :: IsDigit(c)
    ensures var sign := if t.minus then "-" else "";
            AfterInteger(sign, t.whole, FractionText(t.fraction) + ExponentText(t.exponent)) == Got(Meaning(t), "")
    ensures NoDigit(FractionText(t.fraction) + ExponentText(t.exponent))
  {
    var e, f := ExponentText(t.exponent), FractionText(t.fraction);
    ReadsExponent(t.exponent);
    ReadsFraction(t.fraction, e);
    ReadsAfterFraction(t, f, e);
  }

  lemma {:induction false} ReadsAfterFraction(t: Tree, f: string, e: string)
    requires IsTree(t) && t.TNumber? && (forall c | c in t.whole :: IsDigit(c))
    requires f == FractionText(t.fraction) && e == ExponentText(t.exponent) && ReadExponent(e) == Got(e, "")
    requires e == "" <==> t.exponent.None?
    ensures AfterFraction(if t.minus then "-" else "", t.whole, f, e) == Got(Meaning(t), "")
  {
    SameValue(t.whole);
    Pieces(if t.minus then "-" else "", t.whole, f, e);
  }

  lemma {:induction false} SignOf(minus: bool, unsigned: string)
    requires unsigned != "" && unsigned[0] != '-'
    ensures var sign := if minus then "-" else "";
            Sign(sign + unsigned) == sign && (sign + unsigned)[|sign|..] == unsigned
  {
  }

  lemma {:induction false} ReadsNumber(t: Tree)
    requires IsTree(t) && t.TNumber?
    ensures ReadNumber(Text(t)) == Got(Meaning(t), "")
  {
    var tail := FractionText(t.fraction) + ExponentText(t.exponent);
    SameValue(t.whole);
    ReadsAfterWhole(t);
    ReadsWhole(t.whole, tail);
    SignOf(t.minus, t.whole + tail);
  }

  lemma {:induction false} NumberBegins(t: Tree)
    requires IsTree(t) && t.TNumber?
    ensures Text(t) != "" && (Text(t)[0] == '-' || IsDigit(Text(t)[0]))
  {
  }

  // -------------------------------------------------------------------------------------------
  // Reading a string.

  lemma {:induction false} ReadsUnit(hex: string, more: string)
    requires IsCharacter(Unicode(hex))
    ensures HexUnit(hex + more) == Some(Unit(hex)) && (hex + more)[4..] == more
  {
    assert hex[0] in hex && hex[1] in hex && hex[2] in hex && hex[3] in hex;
    assert forall i | 0 <= i < 4 :: (hex + more)[i] == hex[i];
  }

  /** Where a unit comes next, and which. */
  lemma {:induction false} NextUnit(cs: seq<Character>, rest: string)
    requires AreCharacters(cs)
    ensures var more := Body(cs) + ("\"" + rest);
            && (|more| >= 2 && more[..2] == "\\u" <==> cs != [] && cs[0].Unicode?)
            && (cs != [] && cs[0].Unicode? ==>
                  cs[0] in cs && |more| >= 6 && HexUnit(more[2..]) == Some(Unit(cs[0].hex))
                  && more[6..] == Body(cs[1..]) + ("\"" + rest))
  {
    var more := Body(cs) + ("\"" + rest);
    if cs == [] {
      assert more == "\"" + rest && more[0] == '"';
    } else {
      assert cs[0] in cs;
      var after := Body(cs[1..]) + ("\"" + rest);
      assert more == CharacterText(cs[0]) + after;
      match cs[0] {
        case Plain(c) => assert more[0] == c;
        case Short(letter) => assert more[1] == letter;
        case Unicode(hex) => UnitNext(hex, after);
      }
    }
  }

  lemma {:induction false} UnitNext(hex: string, after: string)
    requires IsCharacter(Unicode(hex))
    ensures var more := CharacterText(Unicode(hex)) + after;
            |more| >= 6 && more[..2] == "\\u" && HexUnit(more[2..]) == Some(Unit(hex)) && more[6..] == after
  {
    var more := CharacterText(Unicode(hex)) + after;
    assert more[2..] == hex + after;
    ReadsUnit(hex, after);
  }

  lemma {:induction false} ReadsUnicode(hex: string, cs: seq<Character>, rest: string)
    requires IsCharacter(Unicode(hex)) && AreCharacters(cs)
    ensures var r := ReadUnicode(hex + (Body(cs) + ("\"" + rest)));
            if HighUnit(Unicode(hex)) && cs != [] && cs[0] in cs && LowUnit(cs[0]) then
              r == Got((0x1_0000 + (Unit(hex) - 0xD800) * 0x400 + (Unit(cs[0].hex) - 0xDC00)) as char,
                       Body(cs[1..]) + ("\"" + rest))
            else if HighUnit(Unicode(hex)) || LowUnit(Unicode(hex)) then
              r == Got(0xFFFD as char, Body(cs) + ("\"" + rest))
            else Unit(hex) < 0xD800 + 0x10000 - 0xD800 && r == Got(Unit(hex) as char, Body(cs) + ("\"" + rest))
  {
    var more := Body(cs) + ("\"" + rest);
    var s := hex + more;
    ReadsUnit(hex, more);
    UnitBound(hex);
    NextUnit(cs, rest);
    assert |s| >= 6 ==> s[4..6] == more[..2] && s[6..] == more[2..];
    assert |s| >= 10 ==> s[10..] == more[6..];
  }

  lemma {:induction false} BodyFirst(c: Character, more: seq<Character>, tail: string)
    ensures Body([c] + more) + tail == CharacterText(c) + (Body(more) + tail)
  {
    assert ([c] + more)[1..] == more;
  }

  lemma {:induction false} ReadsPlain(c: char, more: string)
    requires IsCharacter(Plain(c)) && ReadString(more).Got?
    ensures ReadString([c] + more) == Got([c] + ReadString(more).value, ReadString(more).rest)
  {
    assert ([c] + more)[1..] == more;
  }

  lemma {:induction false} ReadsEscape(escaped: string, more: string, c: char)
    requires ReadEscape(escaped) == Got(c, more) && ReadString(more).Got?
    ensures ReadString(['\\'] + escaped) == Got([c] + ReadString(more).value, ReadString(more).rest)
  {
    assert (['\\'] + escaped)[1..] == escaped;
  }

  lemma {:induction false} ReadsShort(letter: char, more: string)
    requires IsCharacter(Short(letter)) && ReadString(more).Got?
    ensures ReadString(['\\', letter] + more) == Got([LetterMeaning(letter)] + ReadString(more).value, ReadString(more).rest)
  {
    assert ([letter] + more)[1..] == more;
    ReadsEscape([letter] + more, more, LetterMeaning(letter));
    assert ['\\'] + ([letter] + more) == ['\\', letter] + more;
  }

  lemma {:induction false} ReadsEscapedUnit(hex: string, cs: seq<Character>, rest: string, c: char, more: string)
    requires ReadUnicode(hex + (Body(cs) + ("\"" + rest))) == Got(c, more) && ReadString(more).Got?
    ensures ReadString(['\\', 'u'] + hex + (Body(cs) + ("\"" + rest)))
         == Got([c] + ReadString(more).value, ReadString(more).rest)
  {
    var t := hex + (Body(cs) + ("\"" + rest));
    assert (['u'] + t)[1..] == t;
    ReadsEscape(['u'] + t, more, c);
    assert ['\\'] + (['u'] + t) == ['\\', 'u'] + hex + (Body(cs) + ("\"" + rest));
  }

  lemma {:induction false} ReadsBody(cs: seq<Character>, rest: string)
    requires AreCharacters(cs)
    ensures ReadString(Body(cs) + ("\"" + rest)) == Got(BodyMeaning(cs), rest)
    decreases |cs|
  {
    var tail := "\"" + rest;
    if cs == [] {
      assert Body(cs) + tail == tail;
      QuoteEnds(rest);
    } else {
      assert cs[0] in cs && forall c | c in cs[1..] :: c in cs;
      assert cs == [cs[0]] + cs[1..];
      BodyFirst(cs[0], cs[1..], tail);
      ReadsBody(cs[1..], rest);
      match cs[0] {
        case Plain(c) => ReadsPlain(c, Body(cs[1..]) + tail);
        case Short(letter) => ReadsShort(letter, Body(cs[1..]) + tail);
        case Unicode(hex) => ReadsFirstUnit(cs, rest);
      }
    }
  }

  lemma {:induction false} ReadsFirstUnit(cs: seq<Character>, rest: string)
    requires AreCharacters(cs) && cs != [] && cs[0].Unicode? && cs[0] in cs && AreCharacters(cs[1..])
    requires ReadString(Body(cs[1..]) + ("\"" + rest)) == Got(BodyMeaning(cs[1..]), rest)
    ensures ReadString(CharacterText(cs[0]) + (Body(cs[1..]) + ("\"" + rest))) == Got(BodyMeaning(cs), rest)
    decreases |cs|, 0
  {
    var hex := cs[0].hex;
    ReadsUnicode(hex, cs[1..], rest);
    var r := ReadUnicode(hex + (Body(cs[1..]) + ("\"" + rest)));
    if HighUnit(cs[0]) && |cs| > 1 && cs[1] in cs && LowUnit(cs[1]) {
      assert forall c | c in cs[2..] :: c in cs;
      assert cs[1..][1..] == cs[2..] && cs[1..][0] == cs[1];
      ReadsBody(cs[2..], rest);
    }
    ReadsEscapedUnit(hex, cs[1..], rest, r.value, r.rest);
  }

  /** What was read as a string is the text of characters that mean it. */
  lemma {:induction false} BodyOf(s: string) returns (cs: seq<Character>)
    requires ReadString(s).Got?
    ensures AreCharacters(cs) && s == Body(cs) + ("\"" + ReadString(s).rest) && BodyMeaning(cs) == ReadString(s).value
    decreases |s|
  {
    var rest := ReadString(s).rest;
    if s[0] == '"' {
      cs := [];
      assert s == "\"" + rest && Body(cs) + ("\"" + rest) == "\"" + rest;
    } else if s[0] == '\\' {
      var more := BodyOf(ReadEscape(s[1..]).rest);
      cs := EscapeOf(s, more, rest);
    } else {
      var more := BodyOf(s[1..]);
      cs := [Plain(s[0])] + more;
      assert cs[1..] == more && s == [s[0]] + s[1..];
      BodyFirst(Plain(s[0]), more, "\"" + rest);
    }
  }

  lemma {:induction false} LetterRead(t: string)
    requires t != "" && t[0] != 'u' && ReadEscape(t).Got?
    ensures IsCharacter(Short(t[0])) && ReadEscape(t) == Got(LetterMeaning(t[0]), t[1..])
  {
  }

  lemma {:induction false} ShortMeans(letter: char, more: seq<Character>)
    requires IsCharacter(Short(letter)) && AreCharacters(more)
    ensures AreCharacters([Short(letter)] + more)
    ensures BodyMeaning([Short(letter)] + more) == [LetterMeaning(letter)] + BodyMeaning(more)
  {
    assert ([Short(letter)] + more)[1..] == more;
  }

  lemma {:induction false} ShortOf(t: string, more: seq<Character>, rest: string) returns (cs: seq<Character>)
    requires t != "" && t[0] != 'u' && ReadEscape(t).Got? && AreCharacters(more)
    requires ReadEscape(t).rest == Body(more) + ("\"" + rest)
    ensures AreCharacters(cs) && ['\\'] + t == Body(cs) + ("\"" + rest)
    ensures BodyMeaning(cs) == [ReadEscape(t).value] + BodyMeaning(more)
  {
    cs := [Short(t[0])] + more;
    LetterRead(t);
    ShortMeans(t[0], more);
    BodyFirst(Short(t[0]), more, "\"" + rest);
    assert ['\\'] + t == ['\\', t[0]] + t[1..];
  }

  lemma {:induction false} EscapeOf(s: string, more: seq<Character>, rest: string) returns (cs: seq<Character>)
    requires s != "" && s[0] == '\\' && ReadEscape(s[1..]).Got? && AreCharacters(more)
    requires ReadEscape(s[1..]).rest == Body(more) + ("\"" + rest)
    ensures AreCharacters(cs) && s == Body(cs) + ("\"" + rest)
    ensures BodyMeaning(cs) == [ReadEscape(s[1..]).value] + BodyMeaning(more)
  {
    var t := s[1..];
    assert s == ['\\'] + t;
    if t[0] == 'u' {
      assert t == ['u'] + t[1..];
      cs := UnicodeOf(t[1..], more, rest);
      assert ['\\', 'u'] + t[1..] == ['\\'] + (['u'] + t[1..]);
    } else {
      cs := ShortOf(t, more, rest);
    }
  }

  lemma {:induction false} HexDigitsOf(s: string)
    requires HexUnit(s).Some?
    ensures IsCharacter(Unicode(s[..4])) && Unit(s[..4]) == HexUnit(s).value && s == s[..4] + s[4..]
  {
    assert HexValue(s[0]).Some? && HexValue(s[1]).Some? && HexValue(s[2]).Some? && HexValue(s[3]).Some?;
    forall c | c in s[..4] ensures IsHex(c) {
      var i :| 0 <= i < 4 && s[..4][i] == c;
      assert i == 0 || i == 1 || i == 2 || i == 3;
    }
  }

  /** Two units that were read as one character. */
  predicate ReadAsPair(t: string) {
    |t| >= 10 && HexUnit(t).Some? && 0xD800 <= HexUnit(t).value < 0xDC00 && t[4..6] == "\\u" && HexUnit(t[6..]).Some?
    && 0xDC00 <= HexUnit(t[6..]).value < 0xE000
  }

  lemma {:induction false} SurrogatesSpelled(t: string, more: seq<Character>, rest: string) returns (cs: seq<Character>)
    requires ReadAsPair(t) && AreCharacters(more) && t[10..] == Body(more) + ("\"" + rest)
    ensures AreCharacters(cs) && ['\\', 'u'] + t == Body(cs) + ("\"" + rest)
    ensures BodyMeaning(cs) == [ReadUnicode(t).value] + BodyMeaning(more)
  {
    var hex, low, tail := t[..4], t[6..][..4], "\"" + rest;
    HexDigitsOf(t);
    HexDigitsOf(t[6..]);
    cs := PairOf(hex, low, more);
    PairBody(hex, low, more, tail);
    PairCut(t);
  }

  lemma {:induction false} PairCut(t: string)
    requires |t| >= 10 && t[4..6] == "\\u"
    ensures ['\\', 'u'] + t == ['\\', 'u'] + t[..4] + (['\\', 'u'] + t[6..][..4] + t[10..])
  {
  }

  lemma {:induction false} PairBody(hex: string, low: string, more: seq<Character>, tail: string)
    ensures Body([Unicode(hex), Unicode(low)] + more) + tail
         == ['\\', 'u'] + hex + (['\\', 'u'] + low + (Body(more) + tail))
  {
    BodyFirst(Unicode(hex), [Unicode(low)] + more, tail);
    BodyFirst(Unicode(low), more, tail);
    assert [Unicode(hex)] + ([Unicode(low)] + more) == [Unicode(hex), Unicode(low)] + more;
  }

  lemma {:induction false} SingleSpelled(t: string, more: seq<Character>, rest: string) returns (cs: seq<Character>)
    requires HexUnit(t).Some? && !ReadAsPair(t) && AreCharacters(more) && t[4..] == Body(more) + ("\"" + rest)
    ensures AreCharacters(cs) && ['\\', 'u'] + t == Body(cs) + ("\"" + rest)
    ensures BodyMeaning(cs) == [if 0xD800 <= HexUnit(t).value < 0xE000 then 0xFFFD as char else HexUnit(t).value as char]
                               + BodyMeaning(more)
  {
    var hex, tail := t[..4], "\"" + rest;
    HexDigitsOf(t);
    cs := [Unicode(hex)] + more;
    NextUnit(more, rest);
    assert |t| >= 6 ==> t[4..6] == t[4..][..2] && t[6..] == t[4..][2..];
    SingleMeans(hex, more);
    BodyFirst(Unicode(hex), more, tail);
  }

  lemma {:induction false} UnicodeOf(t: string, more: seq<Character>, rest: string) returns (cs: seq<Character>)
    requires ReadUnicode(t).Got? && AreCharacters(more) && ReadUnicode(t).rest == Body(more) + ("\"" + rest)
    ensures AreCharacters(cs) && ['\\', 'u'] + t == Body(cs) + ("\"" + rest)
    ensures BodyMeaning(cs) == [ReadUnicode(t).value] + BodyMeaning(more)
  {
    if ReadAsPair(t) {
      cs := SurrogatesSpelled(t, more, rest);
    } else {
      UnitRead(t);
      cs := SingleSpelled(t, more, rest);
    }
  }

  lemma {:induction false} UnitRead(t: string)
    requires ReadUnicode(t).Got? && !ReadAsPair(t)
    ensures HexUnit(t).Some? && HexUnit(t).value < 0x1_0000
    ensures ReadUnicode(t) == Got(if 0xD800 <= HexUnit(t).value < 0xE000 then 0xFFFD as char
                                  else HexUnit(t).value as char, t[4..])
  {
  }

  lemma {:induction false} PairOf(hex: string, low: string, more: seq<Character>) returns (cs: seq<Character>)
    requires IsCharacter(Unicode(hex)) && IsCharacter(Unicode(low)) && AreCharacters(more)
    requires HighUnit(Unicode(hex)) && LowUnit(Unicode(low))
    ensures cs == [Unicode(hex), Unicode(low)] + more && AreCharacters(cs)
    ensures BodyMeaning(cs)
         == [(0x1_0000 + (Unit(hex) - 0xD800) * 0x400 + (Unit(low) - 0xDC00)) as char] + BodyMeaning(more)
  {
    cs := [Unicode(hex), Unicode(low)] + more;
    assert cs[2..] == more;
  }

  lemma {:induction false} SingleMeans(hex: string, more: seq<Character>)
    requires IsCharacter(Unicode(hex)) && AreCharacters(more)
    requires HighUnit(Unicode(hex)) && more != [] ==> more[0] in more && !LowUnit(more[0])
    ensures var cs := [Unicode(hex)] + more;
            AreCharacters(cs) && Unit(hex) < 0x1_0000
            && BodyMeaning(cs) == [if HighUnit(Unicode(hex)) || LowUnit(Unicode(hex)) then 0xFFFD as char
                                   else Unit(hex) as char] + BodyMeaning(more)
  {
    UnitBound(hex);
    var cs := [Unicode(hex)] + more;
    assert cs[1..] == more;
    assert more != [] ==> cs[1] == more[0];
  }

  // -------------------------------------------------------------------------------------------
  // Members given more than once.

  function Prepended(members: seq<Member>): seq<Member> {
    if members == [] then [] else Prepend(members[0], Prepended(members[1..]))
  }

  lemma {:induction false} AssignedDistinct(members: seq<Member>, m: Member)
    requires DistinctKeys(members)
    ensures DistinctKeys(Assigned(members, m))
    ensures forall x | x in Assigned(members, m) :: x == m || x in members
    ensures forall x | x in members :: exists y :: y in Assigned(members, m) && y.key == x.key
  {
    if members != [] {
      var first, rest := members[0], members[1..];
      assert forall i | 0 <= i < |rest| :: rest[i] == members[i + 1];
      AssignedDistinct(rest, m);
      if first.key == m.key {
        assert m in Assigned(members, m);
      } else {
        var later := Assigned(rest, m);
        assert Assigned(members, m) == [first] + later;
        forall i | 0 <= i < |later| ensures later[i].key != first.key { assert later[i] in later; }
        assert first in [first] + later;
        forall x | x in members ensures exists y :: y in [first] + later && y.key == x.key {
          if x != first {
            var y :| y in later && y.key == x.key;
            assert y in [first] + later;
          }
        }
      }
    }
  }

  lemma {:induction false} CollectedDistinct(members: seq<Member>)
    ensures DistinctKeys(Collected(members))
  {
    if members != [] {
      CollectedDistinct(members[..|members| - 1]);
      AssignedDistinct(Collected(members[..|members| - 1]), members[|members| - 1]);
    }
  }

  predicate HasKey(members: seq<Member>, key: string) {
    exists i | 0 <= i < |members| :: members[i].key == key
  }

  lemma HasKeyFirst(m: Member, rest: seq<Member>, key: string)
    ensures HasKey([m] + rest, key) <==> m.key == key || HasKey(rest, key)
  {
    if m.key == key { assert ([m] + rest)[0].key == key; }
    if HasKey(rest, key) {
      var i :| 0 <= i < |rest| && rest[i].key == key;
      assert ([m] + rest)[i + 1].key == key;
    }
  }

  /** Assigning to a member that is not there. */
  lemma {:induction false} AssignAbsent(members: seq<Member>, x: Member)
    requires !HasKey(members, x.key)
    ensures Assigned(members, x) == members + [x]
  {
    if members != [] {
      assert members == [members[0]] + members[1..];
      HasKeyFirst(members[0], members[1..], x.key);
      AssignAbsent(members[1..], x);
    }
  }

  lemma {:induction false} WithoutAbsent(members: seq<Member>, key: string)
    requires !HasKey(members, key)
    ensures Without(members, key) == members
  {
    if members != [] {
      assert members == [members[0]] + members[1..];
      HasKeyFirst(members[0], members[1..], key);
      WithoutAbsent(members[1..], key);
    }
  }

  lemma {:induction false} WithoutAppended(members: seq<Member>, x: Member, key: string)
    ensures Without(members + [x], key) == Without(members, key) + (if x.key == key then [] else [x])
  {
    if members == [] {
      assert members + [x] == [x] && [x][1..] == [];
    } else {
      assert (members + [x])[1..] == members[1..] + [x];
      WithoutAppended(members[1..], x, key);
    }
  }

  /** Leaving a member out before or after another is assigned. */
  lemma {:induction false} WithoutAssigned(members: seq<Member>, x: Member, key: string)
    ensures x.key != key ==> Without(Assigned(members, x), key) == Assigned(Without(members, key), x)
    ensures x.key == key && DistinctKeys(members) ==> Without(Assigned(members, x), key) == Without(members, key)
  {
    if members == [] {
      assert Without([x], key) == (if x.key == key then [] else [x]) + Without([x][1..], key) && [x][1..] == [];
    } else {
      var m, rest := members[0], members[1..];
      assert forall i | 0 <= i < |rest| :: rest[i] == members[i + 1];
      WithoutAssigned(rest, x, key);
      if m.key == x.key {
        assert Assigned(members, x)[1..] == rest && Assigned(members, x)[0] == x;
      } else {
        assert Assigned(members, x)[1..] == Assigned(rest, x) && Assigned(members, x)[0] == m;
        assert Without(members, key) == if m.key == key then Without(rest, key) else [m] + Without(rest, key);
        assert m.key != key ==> ([m] + Without(rest, key))[1..] == Without(rest, key);
      }
    }
  }

  lemma {:induction false} LookupAssigned(members: seq<Member>, x: Member, key: string)
    requires HasKey(Assigned(members, x), key) && (x.key == key || HasKey(members, key))
    ensures Lookup(Assigned(members, x), key) == if x.key == key then x.value else Lookup(members, key)
  {
    if members != [] {
      var m, rest := members[0], members[1..];
      assert members == [m] + rest;
      HasKeyFirst(m, rest, key);
      if m.key == x.key {
        assert Assigned(members, x) == [x] + rest;
      } else {
        assert Assigned(members, x) == [m] + Assigned(rest, x);
        HasKeyFirst(m, Assigned(rest, x), key);
        if m.key != key { LookupAssigned(rest, x, key); }
      }
    } else {
      assert Assigned(members, x) == [x];
    }
  }

  lemma {:induction false} KeysAssigned(members: seq<Member>, x: Member, key: string)
    ensures HasKey(Assigned(members, x), key) <==> x.key == key || HasKey(members, key)
  {
    if members == [] {
      HasKeyFirst(x, [], key);
      assert [x] + [] == [x];
    } else {
      var m, rest := members[0], members[1..];
      assert members == [m] + rest;
      KeysAssigned(rest, x, key);
      HasKeyFirst(m, rest, key);
      if m.key == x.key {
        HasKeyFirst(x, rest, key);
      } else {
        HasKeyFirst(m, Assigned(rest, x), key);
      }
    }
  }

  /** Assigning last, and putting first, in either order. */
  lemma {:induction false} PrependAssigned(m: Member, members: seq<Member>, x: Member)
    requires DistinctKeys(members)
    ensures Assigned(Prepend(m, members), x) == Prepend(m, Assigned(members, x))
  {
    KeysAssigned(members, x, m.key);
    if HasKey(members, m.key) {
      WithoutAssigned(members, x, m.key);
      LookupAssigned(members, x, m.key);
      var kept := Without(members, m.key);
      assert ([Member(m.key, Lookup(members, m.key))] + kept)[1..] == kept;
    } else if x.key == m.key {
      AssignAbsent(members, x);
      WithoutAppended(members, x, m.key);
      WithoutAbsent(members, m.key);
      LookupAssigned(members, x, m.key);
      assert ([m] + members)[1..] == members;
    } else {
      assert ([m] + members)[1..] == members;
    }
  }

  lemma {:induction false} CollectedFirst(m: Member, members: seq<Member>)
    ensures Collected([m] + members) == Prepend(m, Collected(members))
    decreases |members|
  {
    if members == [] {
      assert [m] + members == [m] && [m][..0] == [];
    } else {
      var init, x := members[..|members| - 1], members[|members| - 1];
      var all := [m] + members;
      assert all[..|all| - 1] == [m] + init && all[|all| - 1] == x;
      CollectedFirst(m, init);
      CollectedDistinct(init);
      PrependAssigned(m, Collected(init), x);
    }
  }

  /** From the last member to the first comes to the same as from the first to the last. */
  lemma {:induction false} PrependedIsCollected(members: seq<Member>)
    ensures Prepended(members) == Collected(members)
  {
    if members != [] {
      PrependedIsCollected(members[1..]);
      CollectedFirst(members[0], members[1..]);
      assert [members[0]] + members[1..] == members;
    }
  }

  // -------------------------------------------------------------------------------------------
  // Reading a value.

  lemma {:induction false} SkipsBlank(blank: string, s: string)
    requires Blank(blank) && (s == "" || !IsSpace(s[0]))
    ensures Skip(blank + s) == s
  {
    if blank == "" {
      assert blank + s == s;
    } else {
      assert blank[0] in blank && (blank + s)[1..] == blank[1..] + s;
      assert forall c | c in blank[1..] :: c in blank;
      SkipsBlank(blank[1..], s);
    }
  }

  /** What was skipped is blank. */
  lemma {:induction false} SkippedBlank(s: string) returns (blank: string)
    ensures Blank(blank) && s == blank + Skip(s)
    ensures Skip(s) == "" || !IsSpace(Skip(s)[0])
  {
    if s != "" && IsSpace(s[0]) {
      var more := SkippedBlank(s[1..]);
      blank := [s[0]] + more;
      assert s == [s[0]] + s[1..];
    } else {
      blank := "";
    }
  }

  lemma {:induction false} TextStarts(t: Tree)
    requires IsTree(t)
    ensures StartsValue(Text(t))
  {
    if t.TNumber? { NumberBegins(t); }
  }

  /** A value ends where white space, a comma, a bracket or nothing follows. */
  lemma {:induction false} BlankDelimits(blank: string, end: string)
    requires Blank(blank) && Delimits(end)
    ensures Delimits(blank + end)
  {
    if blank == "" { assert blank + end == end; } else { assert blank[0] in blank; }
  }

  function ItemRest(items: seq<Item>, end: string): string
    requires items != []
  {
    if |items| == 1 then end else "," + ItemsSpelled(items[1..], end)
  }

  /** The items without the white space before the first. */
  function ItemsFromFirst(items: seq<Item>, end: string): string
    requires items != []
  {
    Text(items[0].tree) + (items[0].trail + ItemRest(items, end))
  }

  lemma {:induction false} ItemsLead(items: seq<Item>, end: string)
    requires items != []
    ensures ItemsSpelled(items, end) == items[0].lead + ItemsFromFirst(items, end)
  {
  }

  lemma {:induction false} ItemsEnd(items: seq<Item>, end: string, rest: string)
    requires items != []
    ensures ItemsSpelled(items, end) + rest == ItemsSpelled(items, end + rest)
  {
    if |items| > 1 {
      ItemsEnd(items[1..], end, rest);
      assert ("," + ItemsSpelled(items[1..], end)) + rest == "," + (ItemsSpelled(items[1..], end) + rest);
    }
    var more := ItemRest(items, end);
    assert (items[0].lead + (Text(items[0].tree) + (items[0].trail + more))) + rest
        == items[0].lead + (Text(items[0].tree) + (items[0].trail + (more + rest)));
  }

  lemma {:induction false} ArrayText(gap: string, items: seq<Item>, rest: string)
    ensures Text(TArray(gap, items)) + rest
         == "[" + (if items == [] then gap + ("]" + rest) else ItemsSpelled(items, "]" + rest))
  {
    if items != [] { ItemsEnd(items, "]", rest); }
  }

  lemma {:induction false} ReadsTree(t: Tree, rest: string)
    requires IsTree(t) && Delimits(rest)
    ensures ReadValue(Text(t) + rest) == Got(Meaning(t), rest)
    decreases t, 1
  {
    match t {
      case TNull => WordReads(Null, rest);
      case TTrue => WordReads(Bool(true), rest);
      case TFalse => WordReads(Bool(false), rest);
      case TNumber(_, _, _, _) =>
        ReadsNumber(t);
        NumberBegins(t);
        NumberExtends(Text(t), rest);
        ReadsANumber(Text(t) + rest);
        assert "" + rest == rest;
      case TString(cs) => ReadsStringTree(cs, rest);
      case TArray(gap, items) =>
        if items == [] {
          ReadsEmptyArray(gap, rest);
        } else {
          ReadsItems(items, rest);
          ReadsArray(gap, items, rest);
        }
      case TObject(gap, members) =>
        if members == [] {
          ReadsEmptyObject(gap, rest);
        } else {
          ReadsPairs(members, rest);
          ReadsObject(gap, members, rest);
        }
    }
  }

  lemma {:induction false} ReadsStringTree(cs: seq<Character>, rest: string)
    requires AreCharacters(cs)
    ensures ReadValue(Text(TString(cs)) + rest) == Got(Str(BodyMeaning(cs)), rest)
  {
    var s, inner := Text(TString(cs)) + rest, Body(cs) + ("\"" + rest);
    assert s == "\"" + inner && s[1..] == inner;
    ReadsBody(cs, rest);
    ReadsNoWord(s);
  }

  lemma {:induction false} ReadsEmptyArray(gap: string, rest: string)
    requires Blank(gap)
    ensures ReadValue(Text(TArray(gap, [])) + rest) == Got(Arr([]), rest)
  {
    var s, inner := Text(TArray(gap, [])) + rest, gap + ("]" + rest);
    assert s == "[" + inner && s[1..] == inner;
    SkipsBlank(gap, "]" + rest);
    ReadsNoWord(s);
    assert ("]" + rest)[1..] == rest;
  }

  lemma {:induction false} FromFirstStarts(items: seq<Item>, end: string)
    requires items != [] && IsTree(items[0].tree)
    ensures StartsValue(ItemsFromFirst(items, end))
  {
    TextStarts(items[0].tree);
  }

  lemma {:induction false} ReadsArray(gap: string, items: seq<Item>, rest: string)
    requires AreItems(items) && items != []
    requires ReadItems(ItemsFromFirst(items, "]" + rest)) == Got(ItemsMeaning(items), rest)
    ensures ReadValue(Text(TArray(gap, items)) + rest) == Got(Arr(ItemsMeaning(items)), rest)
  {
    var inner := ItemsSpelled(items, "]" + rest);
    ArrayText(gap, items, rest);
    ItemsLead(items, "]" + rest);
    FromFirstStarts(items, "]" + rest);
    SkipsBlank(items[0].lead, ItemsFromFirst(items, "]" + rest));
    OpensArray(inner, ItemsFromFirst(items, "]" + rest), ItemsMeaning(items), rest);
  }

  lemma {:induction false} OpensArray(inner: string, start: string, items: seq<Value>, rest: string)
    requires Skip(inner) == start && StartsValue(start) && ReadItems(start) == Got(items, rest)
    ensures ReadValue("[" + inner) == Got(Arr(items), rest)
  {
    ReadsNoWord("[" + inner);
    assert ("[" + inner)[1..] == inner;
  }

  lemma {:induction false} ReadsLastItem(s: string, v: Value, after: string, rest: string)
    requires ReadValue(s) == Got(v, after) && Skip(after) == "]" + rest
    ensures ReadItems(s) == Got([v], rest)
  {
    assert ("]" + rest)[1..] == rest;
  }

  lemma {:induction false} ReadsEarlierItem(s: string, v: Value, after: string, next: string, later: seq<Value>, rest: string)
    requires ReadValue(s) == Got(v, after) && Skip(after) == "," + next && ReadItems(Skip(next)) == Got(later, rest)
    ensures ReadItems(s) == Got([v] + later, rest)
  {
    assert ("," + next)[1..] == next;
  }

  lemma {:induction false} ReadsItems(items: seq<Item>, rest: string)
    requires AreItems(items) && items != []
    ensures ReadItems(ItemsFromFirst(items, "]" + rest)) == Got(ItemsMeaning(items), rest)
    decreases items, 0
  {
    var end := "]" + rest;
    var after := items[0].trail + ItemRest(items, end);
    BlankDelimits(items[0].trail, ItemRest(items, end));
    ReadsTree(items[0].tree, after);
    SkipsBlank(items[0].trail, ItemRest(items, end));
    if |items| == 1 {
      assert items[1..] == [] && ItemsMeaning(items) == [Meaning(items[0].tree)];
      ReadsLastItem(ItemsFromFirst(items, end), Meaning(items[0].tree), after, rest);
    } else {
      ReadsItems(items[1..], rest);
      ItemsLead(items[1..], end);
      FromFirstStarts(items[1..], end);
      SkipsBlank(items[1].lead, ItemsFromFirst(items[1..], end));
      ReadsEarlierItem(ItemsFromFirst(items, end), Meaning(items[0].tree), after, ItemsSpelled(items[1..], end),
                       ItemsMeaning(items[1..]), rest);
    }
  }

  // -------------------------------------------------------------------------------------------
  // Objects.

  lemma {:induction false} ReadsEmptyObject(gap: string, rest: string)
    requires Blank(gap)
    ensures ReadValue(Text(TObject(gap, [])) + rest) == Got(Obj([]), rest)
  {
    var s, inner := Text(TObject(gap, [])) + rest, gap + ("}" + rest);
    assert s == "{" + inner && s[1..] == inner;
    SkipsBlank(gap, "}" + rest);
    ReadsNoWord(s);
    assert ("}" + rest)[1..] == rest;
  }

  function PairRest(members: seq<Pair>, end: string): string
    requires members != []
  {
    if |members| == 1 then end else "," + PairsSpelled(members[1..], end)
  }

  lemma {:induction false} PairEnd(p: Pair, end: string, rest: string)
    ensures PairSpelled(p, end) + rest == PairSpelled(p, end + rest)
  {
  }

  lemma {:induction false} PairsLead(members: seq<Pair>, end: string)
    requires members != []
    ensures PairsSpelled(members, end) == members[0].lead + PairSpelled(members[0], PairRest(members, end))
  {
  }

  lemma {:induction false} PairsEnd(members: seq<Pair>, end: string, rest: string)
    requires members != []
    ensures PairsSpelled(members, end) + rest == PairsSpelled(members, end + rest)
  {
    if |members| > 1 {
      PairsEnd(members[1..], end, rest);
      assert ("," + PairsSpelled(members[1..], end)) + rest == "," + (PairsSpelled(members[1..], end) + rest);
    }
    PairEnd(members[0], PairRest(members, end), rest);
    assert (members[0].lead + PairSpelled(members[0], PairRest(members, end))) + rest
        == members[0].lead + (PairSpelled(members[0], PairRest(members, end)) + rest);
  }

  lemma {:induction false} ObjectText(gap: string, members: seq<Pair>, rest: string)
    ensures Text(TObject(gap, members)) + rest
         == "{" + (if members == [] then gap + ("}" + rest) else PairsSpelled(members, "}" + rest))
  {
    if members != [] { PairsEnd(members, "}", rest); }
  }

  lemma {:induction false} ReadsObject(gap: string, members: seq<Pair>, rest: string)
    requires ArePairs(members) && members != []
    requires ReadMembers(PairSpelled(members[0], PairRest(members, "}" + rest))) == Got(Collected(PairsMeaning(members)), rest)
    ensures ReadValue(Text(TObject(gap, members)) + rest) == Got(Obj(Collected(PairsMeaning(members))), rest)
  {
    var inner := PairsSpelled(members, "}" + rest);
    ObjectText(gap, members, rest);
    PairsLead(members, "}" + rest);
    assert IsPair(members[0]);
    SkipsBlank(members[0].lead, PairSpelled(members[0], PairRest(members, "}" + rest)));
    OpensObject(inner, PairSpelled(members[0], PairRest(members, "}" + rest)), Collected(PairsMeaning(members)), rest);
  }

  lemma {:induction false} OpensObject(inner: string, start: string, members: seq<Member>, rest: string)
    requires Skip(inner) == start && Starts(start, '"') && ReadMembers(start) == Got(members, rest)
    ensures ReadValue("{" + inner) == Got(Obj(members), rest)
  {
    ReadsNoWord("{" + inner);
    assert ("{" + inner)[1..] == inner;
  }

  lemma {:induction false} ReadsLastPair(s: string, m: Member, after: string, rest: string)
    requires ReadMember(s) == Got(m, after) && Skip(after) == "}" + rest
    ensures ReadMembers(s) == Got([m], rest)
  {
    assert ("}" + rest)[1..] == rest;
  }

  lemma {:induction false} ReadsEarlierPair(s: string, m: Member, after: string, next: string, later: seq<Member>, rest: string)
    requires ReadMember(s) == Got(m, after) && Skip(after) == "," + next && ReadMembers(Skip(next)) == Got(later, rest)
    ensures ReadMembers(s) == Got(Prepend(m, later), rest)
  {
    assert ("," + next)[1..] == next;
  }

  lemma {:induction false} ReadsPair(p: Pair, more: string)
    requires IsPair(p) && ReadValue(Text(p.tree) + (p.trail + more)) == Got(Meaning(p.tree), p.trail + more)
    ensures ReadMember(PairSpelled(p, more)) == Got(Member(BodyMeaning(p.key), Meaning(p.tree)), p.trail + more)
  {
    var value := Text(p.tree) + (p.trail + more);
    var colon := ":" + (p.colonTrail + value);
    var s := PairSpelled(p, more);
    assert s[1..] == Body(p.key) + ("\"" + (p.colonLead + colon));
    ReadsBody(p.key, p.colonLead + colon);
    SkipsBlank(p.colonLead, colon);
    assert colon[1..] == p.colonTrail + value;
    TextStarts(p.tree);
    SkipsBlank(p.colonTrail, value);
  }

  lemma {:induction false} PairsMeaningFirst(members: seq<Pair>)
    requires ArePairs(members) && members != []
    ensures IsPair(members[0]) && ArePairs(members[1..])
    ensures var m := Member(BodyMeaning(members[0].key), Meaning(members[0].tree));
            && Collected(PairsMeaning(members)) == Prepend(m, Collected(PairsMeaning(members[1..])))
            && (|members| == 1 ==> Collected(PairsMeaning(members)) == [m])
  {
    assert forall i | 0 <= i < |members[1..]| :: members[1..][i] == members[i + 1];
    CollectedFirst(Member(BodyMeaning(members[0].key), Meaning(members[0].tree)), PairsMeaning(members[1..]));
  }

  lemma {:induction false} ReadsPairs(members: seq<Pair>, rest: string)
    requires ArePairs(members) && members != []
    ensures ReadMembers(PairSpelled(members[0], PairRest(members, "}" + rest))) == Got(Collected(PairsMeaning(members)), rest)
    decreases members, 0
  {
    var p, more := members[0], PairRest(members, "}" + rest);
    PairsMeaningFirst(members);
    BlankDelimits(p.trail, more);
    ReadsTree(p.tree, p.trail + more);
    ReadsPair(p, more);
    SkipsBlank(p.trail, more);
    var m := Member(BodyMeaning(p.key), Meaning(p.tree));
    if |members| == 1 {
      ReadsLastPair(PairSpelled(p, more), m, p.trail + more, rest);
    } else {
      ReadsPairs(members[1..], rest);
      PairsLead(members[1..], "}" + rest);
      assert IsPair(members[1..][0]);
      SkipsBlank(members[1].lead, PairSpelled(members[1], PairRest(members[1..], "}" + rest)));
      ReadsEarlierPair(PairSpelled(p, more), m, p.trail + more, PairsSpelled(members[1..], "}" + rest),
                       Collected(PairsMeaning(members[1..])), rest);
    }
  }

  // -------------------------------------------------------------------------------------------
  // What was read is the text of a tree.

  lemma {:induction false} WholeOf(s: string)
    requires ReadInteger(s).Got?
    ensures var r := ReadInteger(s); Numerals(r.value) && (r.value[0] == '0' ==> r.value == "0") && s == r.value + r.rest
  {
    var r := ReadInteger(s);
    assert forall i | 0 <= i < |r.value| :: r.value[i] in r.value;
  }

  lemma {:induction false} TakenNumerals(s: string)
    requires TakeDigits(s).0 != ""
    ensures Numerals(TakeDigits(s).0) && s == TakeDigits(s).0 + TakeDigits(s).1
  {
    TakenAreDigits(s);
    var ds := TakeDigits(s).0;
    assert forall i | 0 <= i < |ds| :: ds[i] in ds;
  }

  lemma {:induction false} FractionOf(s: string) returns (fraction: Option<string>)
    requires ReadFraction(s).Got?
    ensures ReadFraction(s).value == FractionText(fraction) && (fraction.Some? ==> Numerals(fraction.value))
  {
    if s == "" || s[0] != '.' {
      fraction := None;
    } else {
      TakenNumerals(s[1..]);
      fraction := Some(TakeDigits(s[1..]).0);
    }
  }

  lemma {:induction false} ExponentOf(s: string) returns (exponent: Option<Exponent>)
    requires ReadExponent(s).Got?
    ensures ReadExponent(s).value == ExponentText(exponent) && (exponent.Some? ==> IsExponent(exponent.value))
  {
    if s == "" || s[0] !in "eE" {
      exponent := None;
    } else {
      var t := s[1..];
      var sign := if t != "" && t[0] in "+-" then [t[0]] else "";
      TakenNumerals(t[|sign|..]);
      exponent := Some(Exponent(s[0], sign, TakeDigits(t[|sign|..]).0));
    }
  }

  lemma {:induction false} NumberOf(s: string) returns (t: Tree)
    requires ReadNumber(s).Got?
    ensures IsTree(t) && t.TNumber? && s == Text(t) + ReadNumber(s).rest && Meaning(t) == ReadNumber(s).value
  {
    var sign := Sign(s);
    var whole := ReadInteger(s[|sign|..]);
    NumberParts(s);
    WholeOf(s[|sign|..]);
    var fraction := FractionOf(whole.rest);
    var afterFraction := ReadFraction(whole.rest).rest;
    var exponent := ExponentOf(afterFraction);
    t := TNumber(sign == "-", whole.value, fraction, exponent);
    NumberMeans(t, afterFraction);
    NumberSpells(s, t, whole.rest, afterFraction, ReadExponent(afterFraction).rest);
  }

  lemma {:induction false} NumberParts(s: string)
    requires ReadNumber(s).Got?
    ensures var sign := Sign(s);
            var whole := ReadInteger(s[|sign|..]);
            && whole.Got? && s == sign + (whole.value + whole.rest)
            && var f := ReadFraction(whole.rest);
               && f.Got? && ReadExponent(f.rest).Got? && whole.rest == f.value + f.rest
               && (forall c | c in whole.value :: IsDigit(c))
               && ReadNumber(s) == AfterFraction(sign, whole.value, f.value, f.rest)
  {
    var unsigned := s[|Sign(s)|..];
    SignFirst(s);
    var whole := ReadInteger(unsigned);
    AfterIntegerParts(Sign(s), whole.value, whole.rest);
  }

  lemma {:induction false} SignFirst(s: string)
    ensures s == Sign(s) + s[|Sign(s)|..]
  {
  }

  lemma {:induction false} AfterIntegerParts(sign: string, whole: string, s: string)
    requires (forall c | c in whole :: IsDigit(c)) && AfterInteger(sign, whole, s).Got?
    ensures var f := ReadFraction(s);
            && f.Got? && s == f.value + f.rest && ReadExponent(f.rest).Got?
            && AfterInteger(sign, whole, s) == AfterFraction(sign, whole, f.value, f.rest)
  {
  }

  lemma {:induction false} NumberMeans(t: Tree, s: string)
    requires IsTree(t) && t.TNumber? && ReadExponent(s).Got? && ReadExponent(s).value == ExponentText(t.exponent)
    ensures (forall c | c in t.whole :: IsDigit(c))
    ensures AfterFraction(if t.minus then "-" else "", t.whole, FractionText(t.fraction), s)
         == Got(Meaning(t), ReadExponent(s).rest)
  {
    SameValue(t.whole);
    Pieces(if t.minus then "-" else "", t.whole, FractionText(t.fraction), ExponentText(t.exponent));
  }

  lemma {:induction false} NumberSpells(s: string, t: Tree, afterWhole: string, afterFraction: string, rest: string)
    requires t.TNumber? && s == (if t.minus then "-" else "") + (t.whole + afterWhole)
    requires afterWhole == FractionText(t.fraction) + afterFraction && afterFraction == ExponentText(t.exponent) + rest
    ensures s == Text(t) + rest
  {
    var sign, f, e := if t.minus then "-" else "", FractionText(t.fraction), ExponentText(t.exponent);
    assert sign + (t.whole + (f + (e + rest))) == (sign + (t.whole + (f + e))) + rest;
  }

  lemma {:induction false} TreeOf(s: string) returns (t: Tree)
    requires ReadValue(s).Got?
    ensures IsTree(t) && s == Text(t) + ReadValue(s).rest && Meaning(t) == ReadValue(s).value
    decreases |s|, 0
  {
    if "null" <= s {
      t := TNull;
    } else if "true" <= s {
      t := TTrue;
    } else if "false" <= s {
      t := TFalse;
    } else if Starts(s, '"') {
      var cs := BodyOf(s[1..]);
      t := TString(cs);
      StringSpells(s, cs, ReadValue(s).rest);
    } else if Starts(s, '[') {
      t := ArrayOf(s);
    } else if Starts(s, '{') {
      t := ObjectOf(s);
    } else {
      t := NumberOf(s);
    }
  }

  lemma {:induction false} StringSpells(s: string, cs: seq<Character>, rest: string)
    requires Starts(s, '"') && s[1..] == Body(cs) + ("\"" + rest)
    ensures s == Text(TString(cs)) + rest
  {
    assert s == "\"" + s[1..];
  }

  lemma {:induction false} ArrayRead(s: string)
    requires ReadValue(s).Got? && Starts(s, '[') && !("null" <= s) && !("true" <= s) && !("false" <= s)
    ensures var inner := Skip(s[1..]);
            if Starts(inner, ']') then ReadValue(s) == Got(Arr([]), inner[1..])
            else ReadItems(inner).Got? && ReadValue(s) == Got(Arr(ReadItems(inner).value), ReadItems(inner).rest)
  {
  }

  lemma {:induction false} FirstThenRest(s: string, c: char)
    requires Starts(s, c)
    ensures s == [c] + s[1..]
  {
  }

  lemma {:induction false} ArrayOf(s: string) returns (t: Tree)
    requires ReadValue(s).Got? && Starts(s, '[') && !("null" <= s) && !("true" <= s) && !("false" <= s)
    ensures IsTree(t) && s == Text(t) + ReadValue(s).rest && Meaning(t) == ReadValue(s).value
    decreases |s|, 0, 0
  {
    ArrayRead(s);
    FirstThenRest(s, '[');
    var inner := Skip(s[1..]);
    var blank := SkippedBlank(s[1..]);
    if Starts(inner, ']') {
      t := TArray(blank, []);
      FirstThenRest(inner, ']');
      ArrayText(blank, [], inner[1..]);
    } else {
      var items := ItemsOf(inner, blank);
      t := TArray("", items);
      ArrayText("", items, ReadItems(inner).rest);
      AreItemsOfTree(items);
    }
  }

  lemma AreItemsOfTree(items: seq<Item>)
    requires AreItems(items)
    ensures IsTree(TArray("", items))
  {
  }

  /** The items read, with this white space before the first. */
  lemma {:induction false} ItemsOf(s: string, lead: string) returns (items: seq<Item>)
    requires ReadItems(s).Got? && Blank(lead)
    ensures items != [] && AreItems(items) && lead + s == ItemsSpelled(items, "]" + ReadItems(s).rest)
    ensures ItemsMeaning(items) == ReadItems(s).value
    decreases |s|, 1
  {
    var first, rest := ReadValue(s), ReadItems(s).rest;
    ItemsReadStep(s);
    var tree := TreeOf(s);
    var after := Skip(first.rest);
    var trail := SkippedBlank(first.rest);
    var item := Item(lead, tree, trail);
    if Starts(after, ']') {
      items := [item];
      FirstThenRest(after, ']');
      assert items[1..] == [] && ItemsMeaning(items) == [Meaning(tree)];
    } else {
      FirstThenRest(after, ',');
      var blank := SkippedBlank(after[1..]);
      var later := ItemsOf(Skip(after[1..]), blank);
      items := [item] + later;
      assert items[1..] == later;
      MoreItems(item, later);
    }
  }

  lemma {:induction false} ItemsReadStep(s: string)
    requires ReadItems(s).Got?
    ensures ReadValue(s).Got?
    ensures var first, after := ReadValue(s), Skip(ReadValue(s).rest);
            if Starts(after, ']') then ReadItems(s) == Got([first.value], after[1..])
            else Starts(after, ',') && var more := ReadItems(Skip(after[1..]));
                 more.Got? && ReadItems(s) == Got([first.value] + more.value, more.rest)
                 && |Skip(after[1..])| < |s|
  {
  }

  lemma {:induction false} MoreItems(item: Item, later: seq<Item>)
    requires Blank(item.lead) && IsTree(item.tree) && Blank(item.trail) && AreItems(later)
    ensures AreItems([item] + later)
    ensures ItemsMeaning([item] + later) == [Meaning(item.tree)] + ItemsMeaning(later)
  {
    var items := [item] + later;
    assert items[1..] == later;
    assert forall i | 0 <= i < |items| :: i == 0 || items[i] == later[i - 1];
  }

  lemma {:induction false} ObjectRead(s: string)
    requires ReadValue(s).Got? && Starts(s, '{') && !("null" <= s) && !("true" <= s) && !("false" <= s)
    ensures var inner := Skip(s[1..]);
            if Starts(inner, '}') then ReadValue(s) == Got(Obj([]), inner[1..])
            else ReadMembers(inner).Got? && ReadValue(s) == Got(Obj(ReadMembers(inner).value), ReadMembers(inner).rest)
  {
  }

  lemma {:induction false} ObjectOf(s: string) returns (t: Tree)
    requires ReadValue(s).Got? && Starts(s, '{') && !("null" <= s) && !("true" <= s) && !("false" <= s)
    ensures IsTree(t) && s == Text(t) + ReadValue(s).rest && Meaning(t) == ReadValue(s).value
    decreases |s|, 0, 0
  {
    ObjectRead(s);
    FirstThenRest(s, '{');
    var inner := Skip(s[1..]);
    var blank := SkippedBlank(s[1..]);
    if Starts(inner, '}') {
      t := TObject(blank, []);
      FirstThenRest(inner, '}');
      ObjectText(blank, [], inner[1..]);
    } else {
      var members := PairsOf(inner, blank);
      t := TObject("", members);
      ObjectText("", members, ReadMembers(inner).rest);
      ArePairsOfTree(members);
    }
  }

  lemma ArePairsOfTree(members: seq<Pair>)
    requires ArePairs(members)
    ensures IsTree(TObject("", members))
  {
    forall i | 0 <= i < |members| ensures IsPair(members[i]) {}
  }

  /** The member read, in the pair that holds it, white space after it aside. */
  lemma {:induction false} PairOfMember(s: string, lead: string, trail: string) returns (p: Pair)
    requires ReadMember(s).Got? && Blank(lead) && Blank(trail)
    ensures IsPair(p) && p.lead == lead && p.trail == trail
    ensures Member(BodyMeaning(p.key), Meaning(p.tree)) == ReadMember(s).value
    ensures forall more | ReadMember(s).rest == trail + more :: s == PairSpelled(p, more)
    decreases |s|, 0, 1
  {
    var key := ReadString(s[1..]);
    var cs := BodyOf(s[1..]);
    var colon := Skip(key.rest);
    var colonLead := SkippedBlank(key.rest);
    var value := Skip(colon[1..]);
    var colonTrail := SkippedBlank(colon[1..]);
    var tree := TreeOf(value);
    p := Pair(lead, cs, colonLead, colonTrail, tree, trail);
    forall more | ReadMember(s).rest == trail + more ensures s == PairSpelled(p, more) {
      PairSpells(s, p, key.rest, colon, value, more);
    }
  }

  lemma {:induction false} PairSpells(s: string, p: Pair, afterKey: string, colon: string, value: string, more: string)
    requires Starts(s, '"') && s[1..] == Body(p.key) + ("\"" + afterKey) && afterKey == p.colonLead + colon
    requires Starts(colon, ':') && colon[1..] == p.colonTrail + value && value == Text(p.tree) + (p.trail + more)
    ensures s == PairSpelled(p, more)
  {
    assert s == "\"" + s[1..] && colon == ":" + colon[1..];
  }

  lemma {:induction false} PairsOf(s: string, lead: string) returns (members: seq<Pair>)
    requires ReadMembers(s).Got? && Blank(lead)
    ensures members != [] && ArePairs(members) && lead + s == PairsSpelled(members, "}" + ReadMembers(s).rest)
    ensures Collected(PairsMeaning(members)) == ReadMembers(s).value
    decreases |s|, 2
  {
    var first, rest := ReadMember(s), ReadMembers(s).rest;
    var after := Skip(first.rest);
    var trail := SkippedBlank(first.rest);
    var p := PairOfMember(s, lead, trail);
    if Starts(after, '}') {
      members := [p];
      assert after == "}" + rest && first.rest == trail + ("}" + rest);
      PairsMeaningFirst(members);
    } else {
      var next := Skip(after[1..]);
      var blank := SkippedBlank(after[1..]);
      var later := PairsOf(next, blank);
      members := [p] + later;
      assert after == "," + after[1..] && members[1..] == later;
      assert first.rest == trail + ("," + PairsSpelled(later, "}" + rest));
      assert forall i | 0 <= i < |members| :: i == 0 || members[i] == later[i - 1];
      PairsMeaningFirst(members);
    }
  }

  // -------------------------------------------------------------------------------------------
  // What `JSON.parse` accepts, and the codec.

  /** `JSON.parse` gives a value for a text exactly when the text is JSON for it. */
  lemma ParsesExactly(text: string, v: Value)
    ensures Parse(text) == Some(v) <==> IsJson(text, v)
  {
    if Parse(text) == Some(v) { ParsedIsJson(text, v); }
    if IsJson(text, v) { JsonIsParsed(text, v); }
  }

  lemma ParsedIsJson(text: string, v: Value)
    requires Parse(text) == Some(v)
    ensures IsJson(text, v)
  {
    var lead := SkippedBlank(text);
    var t := TreeOf(Skip(text));
    var after := ReadValue(Skip(text)).rest;
    var trail := SkippedBlank(after);
    assert trail + "" == trail;
    assert text == lead + (Text(t) + trail) == lead + Text(t) + trail;
  }

  lemma JsonIsParsed(text: string, v: Value)
    requires IsJson(text, v)
    ensures Parse(text) == Some(v)
  {
    var lead, t, trail :| Blank(lead) && Blank(trail) && IsTree(t) && text == lead + Text(t) + trail && Meaning(t) == v;
    assert text == lead + (Text(t) + trail);
    TextStarts(t);
    SkipsBlank(lead, Text(t) + trail);
    BlankDelimits(trail, "");
    assert trail + "" == trail;
    ReadsTree(t, trail);
    SkipsBlank(trail, "");
  }

  /** The texts a number with a fraction or an exponent may be kept as. */
  lemma DecimalTexts(text: string)
    ensures Valid(Decimal(text)) <==>
              exists t :: IsTree(t) && t.TNumber? && (t.fraction.Some? || t.exponent.Some?) && Text(t) == text
  {
    if Valid(Decimal(text)) {
      var t := NumberOf(text);
      assert Text(t) + "" == Text(t);
    }
    if t :| IsTree(t) && t.TNumber? && (t.fraction.Some? || t.exponent.Some?) && Text(t) == text {
      ReadsNumber(t);
    }
  }

  /** What `get` makes of a stored text: what it is JSON for, and otherwise the text. */
  lemma DecodeMeans(text: string)
    ensures forall v | IsJson(text, v) :: Decode(text) == v
    ensures (forall v :: !IsJson(text, v)) ==> Decode(text) == Str(text)
  {
    forall v ensures Parse(text) == Some(v) <==> IsJson(text, v) { ParsesExactly(text, v); }
  }

  /** What `set` stores: a string as it is, and JSON for any other value. */
  lemma EncodeMeans(v: Value)
    requires Valid(v)
    ensures if v.Str? then Encode(v) == v.s else IsJson(Encode(v), v)
  {
    if !v.Str? {
      ParsePrint(v);
      ParsesExactly(Encode(v), v);
    }
  }

  /** `get` after `set` gives back any value that is no string, and a string exactly when it is no JSON text. */
  lemma CodecRoundTrip(v: Value)
    requires Valid(v)
    ensures Decode(Encode(v)) == v <==> (v.Str? ==> forall w :: !IsJson(v.s, w))
  {
    JsonRoundTrip.CodecRoundTrip(v);
    if v.Str? {
      forall w ensures Parse(v.s) == Some(w) <==> IsJson(v.s, w) { ParsesExactly(v.s, w); }
    }
  }

  /** A number with something after it is no JSON text. */
  lemma NoTrailingText(v: Value)
    ensures !IsJson("5 km", v) && Decode("5 km") == Str("5 km")
  {
    var s, t := "5 km", TNumber(false, "5", None, None);
    assert Text(t) + " km" == s;
    ReadsTree(t, " km");
    assert Skip(s) == s && Skip(" km") == "km" by { assert " km"[1..] == "km"; }
    ParsesExactly(s, v);
  }
}
