/** Percent-encoding and the parameter lists of queries, forms and cookies. */
module UrlParams {
  import opened Basics
  import opened Wrappers
  import opened CaseMap
  import opened HttpChars

  // ---- UrlEncode and UrlDecode ----

  predicate Bytes(s: string) {
    forall i :: 0 <= i < |s| ==> s[i] as int < 256
  }

  /** isalnum of the C locale, and the marks that stay as they are. */
  predicate Unreserved(c: char) {
    IsAlphaNum(c) || c == '-' || c == '_' || c == '.' || c == '~'
  }

  function HexDigit(d: nat): char
    requires d < 16
  {
    if d < 10 then (d + '0' as int) as char else (d - 10 + 'a' as int) as char
  }

  function EncodeByte(c: char, plus: bool): string
    requires c as int < 256
  {
    if Unreserved(c) then [c]
    else if c == ' ' && plus then ['+']
    else ['%', HexDigit(c as int / 16), HexDigit(c as int % 16)]
  }

  function Encode(s: string, plus: bool): string
    requires Bytes(s)
  {
    if s == [] then [] else EncodeByte(s[0], plus) + Encode(s[1..], plus)
  }

  function Decode(s: string, plus: bool): string {
    if s == [] then []
    else if s[0] == '%' then
      if 2 < |s| && IsHex(s[1]) && IsHex(s[2]) then
        [(Unhex(s[1]) * 16 + Unhex(s[2])) as char] + Decode(s[3..], plus)
      else ['%'] + Decode(s[1..], plus)
    else [if plus && s[0] == '+' then ' ' else s[0]] + Decode(s[1..], plus)
  }

  lemma EncodeAt(s: string, i: nat, plus: bool)
    requires Bytes(s) && i < |s|
    ensures Encode(s[i..], plus) == EncodeByte(s[i], plus) + Encode(s[i + 1..], plus)
  {
    assert s[i..][1..] == s[i + 1..];
  }

  /** What one turn of UrlDecode at `i` appends, and where the next one is. */
  function DecodeTurn(s: string, i: nat, plus: bool): (char, nat)
    requires i < |s|
  {
    if s[i] == '%' then
      if i + 2 < |s| && IsHex(s[i + 1]) && IsHex(s[i + 2]) then ((Unhex(s[i + 1]) * 16 + Unhex(s[i + 2])) as char, i + 3)
      else ('%', i + 1)
    else (if plus && s[i] == '+' then ' ' else s[i], i + 1)
  }

  lemma DecodeAt(s: string, i: nat, plus: bool)
    requires i < |s|
    ensures var (c, next) := DecodeTurn(s, i, plus); next <= |s| && Decode(s[i..], plus) == [c] + Decode(s[next..], plus)
  {
    hide IsHex, Unhex;
    var rest := s[i..];
    assert rest[1..] == s[i + 1..];
    if i + 2 < |s| {
      assert rest[1] == s[i + 1] && rest[2] == s[i + 2] && rest[3..] == s[i + 3..];
    }
  }

  method UrlEncode(str: string, spaceAsPlus: bool) returns (encoded: string)
    requires Bytes(str)
    ensures encoded == Encode(str, spaceAsPlus)
  {
    hide Encode, Unreserved, HexDigit;
    encoded := [];
    assert str[0..] == str && [] + Encode(str, spaceAsPlus) == Encode(str, spaceAsPlus);
    for i := 0 to |str|
      invariant encoded + Encode(str[i..], spaceAsPlus) == Encode(str, spaceAsPlus)
    {
      var ch := str[i];
      EncodeAt(str, i, spaceAsPlus);
      Regroup(encoded, EncodeByte(ch, spaceAsPlus), Encode(str[i + 1..], spaceAsPlus));
      if Unreserved(ch) {
        encoded := encoded + [ch];
      } else if ch == ' ' && spaceAsPlus {
        encoded := encoded + ['+'];
      } else {
        encoded := encoded + ['%', HexDigit(ch as int / 16), HexDigit(ch as int % 16)];
      }
    }
    EncodeNothing(str, encoded, spaceAsPlus);
  }

  lemma EncodeNothing(s: string, out: string, plus: bool)
    requires Bytes(s)
    ensures out + Encode(s[|s|..], plus) == out
  {
    assert s[|s|..] == [];
    assert out + [] == out;
  }

  method UrlDecode(str: string, spaceAsPlus: bool) returns (decoded: string)
    ensures decoded == Decode(str, spaceAsPlus)
  {
    hide Decode, IsHex, Unhex;
    decoded := [];
    var i: nat := 0;
    assert str[0..] == str && [] + Decode(str, spaceAsPlus) == Decode(str, spaceAsPlus);
    while i < |str|
      invariant i <= |str| && decoded + Decode(str[i..], spaceAsPlus) == Decode(str, spaceAsPlus)
    {
      DecodeAt(str, i, spaceAsPlus);
      ghost var (c, next) := DecodeTurn(str, i, spaceAsPlus);
      Regroup(decoded, [c], Decode(str[next..], spaceAsPlus));
      if str[i] == '%' {
        if i + 2 < |str| && IsHex(str[i + 1]) && IsHex(str[i + 2]) {
          HexIs(str[i + 1]);
          HexIs(str[i + 2]);
          decoded := decoded + [(Unhex(str[i + 1]) * 16 + Unhex(str[i + 2])) as char];
          i := i + 2;
        } else {
          decoded := decoded + ['%'];
        }
      } else if spaceAsPlus && str[i] == '+' {
        decoded := decoded + [' '];
      } else {
        decoded := decoded + [str[i]];
      }
      i := i + 1;
    }
    DecodeNothing(str, decoded, spaceAsPlus);
  }

  lemma HexIs(c: char)
    requires IsHex(c)
    ensures 0 <= Unhex(c) < 16
  {
  }

  lemma DecodeNothing(s: string, out: string, plus: bool)
    ensures out + Decode(s[|s|..], plus) == out
  {
    assert s[|s|..] == [];
    assert out + [] == out;
  }

  lemma HexBack(c: char)
    requires c as int < 256
    ensures var x, y := HexDigit(c as int / 16), HexDigit(c as int % 16);
            IsHex(x) && IsHex(y) && (Unhex(x) * 16 + Unhex(y)) as char == c
  {
    HexDigitBack(c as int / 16);
    HexDigitBack(c as int % 16);
  }

  lemma HexDigitBack(d: nat)
    requires d < 16
    ensures IsHex(HexDigit(d)) && Unhex(HexDigit(d)) == d
  {
  }

  lemma DecodePercent(x: char, y: char, plus: bool, rest: string)
    requires IsHex(x) && IsHex(y)
    ensures Decode(['%', x, y] + rest, plus) == [(Unhex(x) * 16 + Unhex(y)) as char] + Decode(rest, plus)
  {
    hide IsHex, Unhex;
    HexIs(x);
    HexIs(y);
    var s := ['%', x, y] + rest;
    assert s[0] == '%' && s[1] == x && s[2] == y && s[3..] == rest;
  }

  lemma DecodePlain(c: char, plus: bool, rest: string)
    requires c != '%'
    ensures Decode([c] + rest, plus) == [if plus && c == '+' then ' ' else c] + Decode(rest, plus)
  {
    hide IsHex, Unhex;
    assert ([c] + rest)[1..] == rest;
  }

  lemma EncodeByteIs(c: char, plus: bool)
    requires c as int < 256
    ensures var e := EncodeByte(c, plus);
            || (e == [c] && c != '%' && c != '+')
            || (e == ['+'] && c == ' ' && plus)
            || e == ['%', HexDigit(c as int / 16), HexDigit(c as int % 16)]
  {
    hide HexDigit;
  }

  lemma DecodeFirst(c: char, plus: bool, rest: string)
    requires c as int < 256
    ensures Decode(EncodeByte(c, plus) + rest, plus) == [c] + Decode(rest, plus)
  {
    hide Decode, EncodeByte, HexDigit, IsHex, Unhex;
    EncodeByteIs(c, plus);
    var e := EncodeByte(c, plus);
    if |e| == 3 {
      HexBack(c);
      DecodePercent(e[1], e[2], plus, rest);
    } else {
      DecodePlain(e[0], plus, rest);
    }
  }

  /** Decoding inverts encoding, for all byte strings. */
  lemma {:induction false} DecodeInvertsEncode(s: string, plus: bool)
    requires Bytes(s)
    ensures Decode(Encode(s, plus), plus) == s
  {
    hide EncodeByte;
    if s == [] {
    } else {
      DecodeInvertsEncode(s[1..], plus);
      DecodeFirst(s[0], plus, Encode(s[1..], plus));
      assert s == [s[0]] + s[1..];
    }
  }

  /** Encoded text is made of unreserved bytes, '%' and '+': never a separator. */
  lemma {:induction false} EncodedAlphabet(s: string, plus: bool, i: nat)
    requires Bytes(s) && i < |Encode(s, plus)|
    ensures var c := Encode(s, plus)[i]; Unreserved(c) || c == '%' || c == '+'
    ensures var c := Encode(s, plus)[i]; c != '&' && c != '=' && c != ';'
  {
    var e := EncodeByte(s[0], plus);
    if i < |e| {
      if |e| == 3 {
        HexDigitBack(s[0] as int / 16);
        HexDigitBack(s[0] as int % 16);
      }
      assert Encode(s, plus)[i] == e[i];
    } else {
      EncodedAlphabet(s[1..], plus, i - |e|);
      assert Encode(s, plus)[i] == Encode(s[1..], plus)[i - |e|];
    }
  }

  // ---- what encoded text looks like ----

  /** The unreserved bytes of section 2.3 of RFC 3986. */
  const UNRESERVED := UPPER + SMALL + DIGITS + "-_.~"

  lemma UnreservedIs(c: char)
    ensures Unreserved(c) <==> c in UNRESERVED
  {
    hide UPPER, SMALL, DIGITS;
    LettersAre(c);
  }

  function Count(s: string, c: char): nat {
    if s == [] then 0 else (if s[0] == c then 1 else 0) + Count(s[1..], c)
  }

  lemma {:induction false} CountConcat(a: string, b: string, c: char)
    ensures Count(a + b, c) == Count(a, c) + Count(b, c)
  {
    if a == [] {
      assert a + b == b;
    } else {
      assert (a + b)[0] == a[0] && (a + b)[1..] == a[1..] + b;
      CountConcat(a[1..], b, c);
    }
  }

  lemma {:induction false} CountNone(s: string, c: char)
    requires c !in s
    ensures Count(s, c) == 0
  {
    if s == [] {
    } else {
      CountNone(s[1..], c);
    }
  }

  /** One byte encoded: itself; or '+' for a blank, if asked for; or '%' and its two hexadecimal digits. */
  lemma ByteEncoded(c: char, plus: bool)
    requires c as int < 256
    ensures Encode([c], plus) == if c in UNRESERVED then [c]
                                 else if c == ' ' && plus then "+"
                                 else ['%', "0123456789abcdef"[c as int / 16], "0123456789abcdef"[c as int % 16]]
  {
    UnreservedIs(c);
    DigitIs(c as int / 16);
    DigitIs(c as int % 16);
    hide UNRESERVED, Unreserved, HexDigit;
    assert [c][1..] == [] && EncodeByte(c, plus) + [] == EncodeByte(c, plus);
  }

  lemma DigitIs(d: nat)
    requires d < 16
    ensures HexDigit(d) == "0123456789abcdef"[d]
  {
    if d < 10 {
      assert "0123456789abcdef"[d] == ('0' as int + d) as char;
    } else {
      assert "0123456789abcdef"[d] == ('a' as int + d - 10) as char;
    }
  }

  /** Every byte is encoded on its own. */
  lemma {:induction false} EncodeConcat(a: string, b: string, plus: bool)
    requires Bytes(a) && Bytes(b)
    ensures Encode(a + b, plus) == Encode(a, plus) + Encode(b, plus)
  {
    hide EncodeByte;
    if a == [] {
      assert a + b == b;
    } else {
      assert (a + b)[0] == a[0] && (a + b)[1..] == a[1..] + b;
      EncodeConcat(a[1..], b, plus);
    }
  }

  /** Blanks become '+' one for one if asked for, and nothing else does. */
  lemma {:induction false} PlusForBlank(s: string, plus: bool)
    requires Bytes(s)
    ensures Count(Encode(s, plus), '+') == if plus then Count(s, ' ') else 0
  {
    if s == [] {
    } else {
      var first, rest := [s[0]], s[1..];
      assert s == first + rest;
      EncodeConcat(first, rest, plus);
      PlusForBlank(rest, plus);
      CountConcat(Encode(first, plus), Encode(rest, plus), '+');
      OneBlank(s[0], plus);
    }
  }

  lemma OneBlank(c: char, plus: bool)
    requires c as int < 256
    ensures Count(Encode([c], plus), '+') == if plus && c == ' ' then 1 else 0
  {
    hide Encode, UNRESERVED, Unreserved;
    ByteEncoded(c, plus);
    PlusReserved();
    var e := Encode([c], plus);
    if |e| == 3 {
      NoPlusDigit(c as int / 16);
      NoPlusDigit(c as int % 16);
      CountNone(e, '+');
    } else if c in UNRESERVED {
      CountNone(e, '+');
    } else {
      assert e == ['+'] && e[1..] == [];
    }
  }

  lemma PlusReserved()
    ensures '+' !in UNRESERVED && ' ' !in UNRESERVED
  {
    hide UNRESERVED;
    UnreservedIs('+');
    UnreservedIs(' ');
  }

  lemma NoPlusDigit(d: nat)
    requires d < 16
    ensures "0123456789abcdef"[d] != '+'
  {
    assert forall c :: c in "0123456789abcdef" ==> c != '+';
  }

  /** Unreserved text is its own encoding, and text without '%' and '+' its own decoding. */
  lemma {:induction false} PlainText(s: string, plus: bool)
    requires Bytes(s)
    ensures (forall c <- s :: c in UNRESERVED) ==> Encode(s, plus) == s
    ensures '%' !in s && ('+' !in s || !plus) ==> Decode(s, plus) == s
  {
    hide UNRESERVED;
    if s == [] {
    } else {
      var first, rest := [s[0]], s[1..];
      assert s == first + rest;
      PlainText(rest, plus);
      EncodeConcat(first, rest, plus);
      ByteEncoded(s[0], plus);
      hide Encode, Decode;
      if '%' !in s && ('+' !in s || !plus) {
        DecodePlain(s[0], plus, rest);
      }
    }
  }

  /** A '%' that is not followed by two hexadecimal digits stays. */
  lemma MalformedStays(rest: string, plus: bool)
    requires |rest| < 2 || !IsHex(rest[0]) || !IsHex(rest[1])
    ensures Decode(['%'] + rest, plus) == ['%'] + Decode(rest, plus)
  {
    hide IsHex, Unhex;
    assert (['%'] + rest)[1..] == rest;
  }

  /** An escape with two hexadecimal digits, of either case each, is the byte they say. */
  lemma EscapeRead(i: nat, j: nat, upper: bool, small: bool, rest: string, plus: bool)
    requires i < 16 && j < 16
    ensures var x := (if upper then "0123456789ABCDEF" else "0123456789abcdef")[i];
            var y := (if small then "0123456789abcdef" else "0123456789ABCDEF")[j];
            Decode(['%', x, y] + rest, plus) == [(i * 16 + j) as char] + Decode(rest, plus)
  {
    HexDigits(i);
    HexDigits(j);
    hide IsHex, Unhex;
    var x := (if upper then "0123456789ABCDEF" else "0123456789abcdef")[i];
    var y := (if small then "0123456789abcdef" else "0123456789ABCDEF")[j];
    var s := ['%', x, y] + rest;
    assert s[1] == x && s[2] == y && s[3..] == rest;
  }

  // ---- parameter lists ----

  /** std::string::find from the front; the length when there is none. */
  function IndexOf(s: string, c: char): (i: nat)
    ensures i <= |s| && (i < |s| ==> s[i] == c) && forall j :: 0 <= j < i ==> s[j] != c
  {
    if s == [] || s[0] == c then 0 else 1 + IndexOf(s[1..], c)
  }

  predicate Blank(c: char) {
    c == ' ' || c == '\t' || c == CR || c == LF
  }

  /** StringUtil::Trim */
  function Trim(s: string): string {
    if s == [] then []
    else if Blank(s[0]) then Trim(s[1..])
    else if Blank(s[|s| - 1]) then Trim(s[..|s| - 1])
    else s
  }

  function TrimIf(trim: bool, s: string): string {
    if trim then Trim(s) else s
  }

  /** The pairs PARSE_PARAM finds. A stretch without '=' joins the key that follows it. */
  function Parse(s: string, flag: char, trim: bool): seq<Entry>
    requires flag != '='
    decreases |s|
  {
    var key := IndexOf(s, '=');
    if key == |s| then []
    else
      var end := key + IndexOf(s[key..], flag);
      var first := Entry(TrimIf(trim, s[..key]), Decode(s[key + 1..end], true));
      if end == |s| then [first] else [first] + Parse(s[end + 1..], flag, trim)
  }

  /** m.insert for each pair in turn: the first value of a key stays. */
  function InsertAll(m: seq<Entry>, pairs: seq<Entry>): seq<Entry>
    decreases |pairs|
  {
    if pairs == [] then m else InsertAll(Emplace(m, pairs[0].key, pairs[0].value, false), pairs[1..])
  }

  /** The list of pairs written out, with the values encoded. */
  function Join(pairs: seq<Entry>, flag: char, plus: bool): string
    requires forall i :: 0 <= i < |pairs| ==> Bytes(pairs[i].value)
  {
    if pairs == [] then []
    else
      var first := pairs[0].key + ['='] + Encode(pairs[0].value, plus);
      if |pairs| == 1 then first else first + [flag] + Join(pairs[1..], flag, plus)
  }

  lemma {:induction false} IndexBehind(a: string, c: char, rest: string)
    requires c !in a
    ensures IndexOf(a + [c] + rest, c) == |a| && IndexOf(a, c) == |a|
  {
    if a == [] {
      assert a + [c] + rest == [c] + rest;
    } else {
      assert (a + [c] + rest)[1..] == a[1..] + [c] + rest;
      IndexBehind(a[1..], c, rest);
    }
  }

  lemma EncodedWithout(s: string, plus: bool, c: char)
    requires Bytes(s) && (c == '&' || c == '=' || c == ';')
    ensures c !in Encode(s, plus)
  {
    forall i | 0 <= i < |Encode(s, plus)| ensures Encode(s, plus)[i] != c {
      EncodedAlphabet(s, plus, i);
    }
  }

  /** The pair at the front: its key ends at `key`, its value at `end`. */
  lemma {:induction false} ParseIs(s: string, flag: char, trim: bool, key: nat, end: nat)
    requires flag != '=' && key == IndexOf(s, '=') < end <= |s| && end == key + IndexOf(s[key..], flag)
    ensures var first := Entry(TrimIf(trim, s[..key]), Decode(s[key + 1..end], true));
            Parse(s, flag, trim) == if end == |s| then [first] else [first] + Parse(s[end + 1..], flag, trim)
  {
    hide Decode, TrimIf, IndexOf;
  }

  /** One pair alone. */
  lemma ParseLast(key: string, value: string, flag: char, trim: bool)
    requires '=' !in key && Bytes(value) && (flag == '&' || flag == ';')
    ensures Parse(key + ['='] + Encode(value, true), flag, trim) == [Entry(TrimIf(trim, key), value)]
  {
    hide Parse, Encode, Decode, TrimIf, IndexOf;
    var e := Encode(value, true);
    var s, k := key + ['='] + e, |key|;
    EncodedWithout(value, true, flag);
    DecodeInvertsEncode(value, true);
    IndexBehind(key, '=', e);
    assert s[k..] == ['='] + e;
    IndexBehind(['='] + e, flag, []);
    ParseIs(s, flag, trim, k, |s|);
    assert s[..k] == key && s[k + 1..|s|] == e;
  }

  /** One pair in front of the rest of the list. */
  lemma ParseFirst(key: string, value: string, flag: char, trim: bool, rest: string)
    requires '=' !in key && Bytes(value) && (flag == '&' || flag == ';')
    ensures Parse(key + ['='] + Encode(value, true) + [flag] + rest, flag, trim)
         == [Entry(TrimIf(trim, key), value)] + Parse(rest, flag, trim)
  {
    hide Parse, Encode, Decode, TrimIf, IndexOf;
    var e := Encode(value, true);
    var s, k := key + ['='] + e + [flag] + rest, |key|;
    EncodedWithout(value, true, flag);
    DecodeInvertsEncode(value, true);
    assert s == key + ['='] + (e + [flag] + rest);
    IndexBehind(key, '=', e + [flag] + rest);
    assert s[k..] == (['='] + e) + [flag] + rest;
    IndexBehind(['='] + e, flag, rest);
    var end := k + 1 + |e|;
    ParseIs(s, flag, trim, k, end);
    assert s[..k] == key && s[k + 1..end] == e && s[end + 1..] == rest;
  }

  function TrimKeys(trim: bool, pairs: seq<Entry>): seq<Entry> {
    if pairs == [] then [] else [Entry(TrimIf(trim, pairs[0].key), pairs[0].value)] + TrimKeys(trim, pairs[1..])
  }

  /** Parsing inverts joining, for keys without '=' and values of any bytes. */
  lemma {:induction false} ParseInvertsJoin(pairs: seq<Entry>, flag: char, trim: bool)
    requires forall i :: 0 <= i < |pairs| ==> Bytes(pairs[i].value) && '=' !in pairs[i].key
    requires flag == '&' || flag == ';'
    ensures Parse(Join(pairs, flag, true), flag, trim) == TrimKeys(trim, pairs)
    decreases |pairs|
  {
    hide Parse, Encode, Bytes, TrimIf;
    if pairs == [] {
      ParseNothing(flag, trim);
    } else {
      var p, first := pairs[0], pairs[0].key + ['='] + Encode(pairs[0].value, true);
      if |pairs| == 1 {
        ParseLast(p.key, p.value, flag, trim);
      } else {
        var rest := Join(pairs[1..], flag, true);
        ParseInvertsJoin(pairs[1..], flag, trim);
        ParseFirst(p.key, p.value, flag, trim, rest);
      }
    }
  }

  lemma ParseNothing(flag: char, trim: bool)
    requires flag != '='
    ensures Parse([], flag, trim) == []
  {
  }

  lemma {:induction false} InsertAllFind(m: seq<Entry>, pairs: seq<Entry>, k: string)
    requires Sorted(m)
    ensures Find(InsertAll(m, pairs), k) == if Find(m, k).Some? then Find(m, k) else Find(pairs, k)
    ensures Sorted(InsertAll(m, pairs))
    decreases |pairs|
  {
    hide Sorted, Emplace, Same;
    if pairs == [] {
    } else {
      var p := pairs[0];
      EmplaceSorted(m, p.key, p.value, false);
      EmplaceFind(m, p.key, p.value, false, k);
      InsertAllFind(Emplace(m, p.key, p.value, false), pairs[1..], k);
      if Same(p.key, k) {
        SameFind(m, p.key, k);
      }
    }
  }

  lemma {:induction false} SameFind(m: seq<Entry>, a: string, b: string)
    requires Same(a, b)
    ensures Find(m, a) == Find(m, b)
  {
    if m == [] {
    } else {
      SameFind(m[1..], a, b);
    }
  }

  /** Parameter round trip: from the joined text every key gets back the first value given for it. */
  lemma ParamsComeBack(pairs: seq<Entry>, k: string)
    requires forall i :: 0 <= i < |pairs| ==> Bytes(pairs[i].value) && '=' !in pairs[i].key
    ensures Find(InsertAll([], Parse(Join(pairs, '&', true), '&', false)), k) == Find(pairs, k)
  {
    hide Parse, Join, InsertAll;
    ParseInvertsJoin(pairs, '&', false);
    KeysUntrimmed(pairs);
    InsertAllFind([], pairs, k);
  }

  lemma {:induction false} KeysUntrimmed(pairs: seq<Entry>)
    ensures TrimKeys(false, pairs) == pairs
  {
    if pairs == [] {
    } else {
      KeysUntrimmed(pairs[1..]);
    }
  }

  // ---- cookies: blanks around keys ----

  predicate AllBlank(s: string) {
    forall i :: 0 <= i < |s| ==> Blank(s[i])
  }

  /** Nothing, or no blank at either end. */
  predicate Trimmed(s: string) {
    s == [] || (!Blank(s[0]) && !Blank(s[|s| - 1]))
  }

  /** Trim takes away the blanks at both ends and nothing else. */
  lemma {:induction false} TrimExact(a: string, core: string, b: string)
    requires AllBlank(a) && Trimmed(core) && AllBlank(b)
    ensures Trim(a + core + b) == core
    decreases |a| + |b|
  {
    hide Blank;
    var s := a + core + b;
    if a != [] {
      assert s[0] == a[0] && s[1..] == a[1..] + core + b;
      TrimExact(a[1..], core, b);
    } else if b != [] {
      var init := b[..|b| - 1];
      TrimExact(a, core, init);
      assert s[|s| - 1] == b[|b| - 1] && s[..|s| - 1] == a + core + init;
      if core == [] {
        assert s == b && s[1..] == b[1..];
        TrimBlanks(b);
        TrimBlanks(init);
      } else {
        assert s[0] == core[0];
      }
    } else {
      assert s == core;
    }
  }

  lemma {:induction false} TrimBlanks(s: string)
    requires AllBlank(s)
    ensures Trim(s) == []
  {
    hide Blank;
    if s != [] {
      TrimBlanks(s[1..]);
    }
  }

  /** The pairs with a blank in front of every key but the first. */
  function Spaced(pairs: seq<Entry>): (r: seq<Entry>)
    ensures |r| == |pairs| && forall i :: 0 <= i < |pairs| ==> r[i].value == pairs[i].value
    ensures forall i :: 0 <= i < |pairs| ==> r[i].key == (if i == 0 then [] else [' ']) + pairs[i].key
  {
    seq(|pairs|, i requires 0 <= i < |pairs| => Entry((if i == 0 then [] else [' ']) + pairs[i].key, pairs[i].value))
  }

  lemma {:induction false} TrimKeysAt(pairs: seq<Entry>)
    ensures |TrimKeys(true, pairs)| == |pairs|
    ensures forall i :: 0 <= i < |pairs| ==> TrimKeys(true, pairs)[i] == Entry(Trim(pairs[i].key), pairs[i].value)
    decreases |pairs|
  {
    hide Trim;
    if pairs != [] {
      TrimKeysAt(pairs[1..]);
      assert forall i :: 1 <= i < |pairs| ==> TrimKeys(true, pairs)[i] == TrimKeys(true, pairs[1..])[i - 1];
    }
  }

  lemma SpacedTrimmed(pairs: seq<Entry>)
    requires forall i :: 0 <= i < |pairs| ==> Trimmed(pairs[i].key)
    ensures TrimKeys(true, Spaced(pairs)) == pairs
  {
    hide Trim, Trimmed, TrimKeys, Spaced;
    TrimKeysAt(Spaced(pairs));
    forall i | 0 <= i < |pairs| ensures Trim(Spaced(pairs)[i].key) == pairs[i].key {
      var pad := if i == 0 then [] else [' '];
      TrimExact(pad, pairs[i].key, []);
      assert pad + pairs[i].key + [] == pad + pairs[i].key;
    }
  }

  /** A cookie header, "a=1; b=2", gives back the first value of each key. */
  lemma CookiesComeBack(pairs: seq<Entry>, k: string)
    requires forall i :: 0 <= i < |pairs| ==> Bytes(pairs[i].value) && '=' !in pairs[i].key && Trimmed(pairs[i].key)
    ensures Find(InsertAll([], Parse(Join(Spaced(pairs), ';', true), ';', true)), k) == Find(pairs, k)
  {
    hide Parse, Join, InsertAll, Spaced, Trimmed, TrimKeys, Bytes;
    forall i | 0 <= i < |pairs| ensures '=' !in Spaced(pairs)[i].key {
      assert pairs[i].key == pairs[i].key;
    }
    ParseInvertsJoin(Spaced(pairs), ';', true);
    SpacedTrimmed(pairs);
    InsertAllFind([], pairs, k);
  }

  /** PARSE_PARAM: adds the pairs of `str` to the map. */
  method ParseParam(str: string, flag: char, trim: bool, m0: seq<Entry>) returns (m: seq<Entry>)
    requires flag != '='
    ensures m == InsertAll(m0, Parse(str, flag, trim))
  {
    hide *;
    m := m0;
    var pos: nat := 0;
    assert str[0..] == str;
    while true
      invariant pos <= |str| && InsertAll(m, Parse(str[pos..], flag, trim)) == InsertAll(m0, Parse(str, flag, trim))
      decreases |str| - pos
    {
      var last := pos;
      pos := last + IndexOf(str[last..], '=');
      ParseTurn(m, str, last, flag, trim);
      if pos == |str| {
        break;
      }
      var key: nat := pos;
      pos := key + IndexOf(str[key..], flag);
      var value := UrlDecode(str[key + 1..pos], true);
      var first := Entry(TrimIf(trim, str[last..key]), value);
      m := Emplace(m, first.key, first.value, false);
      if pos == |str| {
        break;
      }
      pos := pos + 1;
    }
  }

  /** What one turn of the loop does to the map. */
  lemma ParseTurn(m: seq<Entry>, str: string, last: nat, flag: char, trim: bool)
    requires last <= |str| && flag != '='
    ensures var key := last + IndexOf(str[last..], '=');
            var all := InsertAll(m, Parse(str[last..], flag, trim));
            && key <= |str|
            && (key == |str| ==> all == m)
            && (key < |str| ==>
                  var pos := key + IndexOf(str[key..], flag);
                  && key < pos <= |str|
                  && var more := Emplace(m, TrimIf(trim, str[last..key]), Decode(str[key + 1..pos], true), false);
                     all == if pos == |str| then more else InsertAll(more, Parse(str[pos + 1..], flag, trim)))
  {
    hide *;
    ParseAt(str, last, flag, trim);
    InsertNone(m);
    var key := last + IndexOf(str[last..], '=');
    if key < |str| {
      var pos := key + IndexOf(str[key..], flag);
      var first := Entry(TrimIf(trim, str[last..key]), Decode(str[key + 1..pos], true));
      InsertFirst(m, first, if pos == |str| then [] else Parse(str[pos + 1..], flag, trim));
      assert [first] + [] == [first];
      InsertNone(Emplace(m, first.key, first.value, false));
    }
  }

  lemma InsertNone(m: seq<Entry>)
    ensures InsertAll(m, []) == m
  {
  }

  lemma InsertFirst(m: seq<Entry>, first: Entry, rest: seq<Entry>)
    ensures InsertAll(m, [first] + rest) == InsertAll(Emplace(m, first.key, first.value, false), rest)
  {
    assert ([first] + rest)[1..] == rest;
  }

  /** One turn of PARSE_PARAM. */
  lemma ParseAt(str: string, last: nat, flag: char, trim: bool)
    requires last <= |str| && flag != '='
    ensures var key := last + IndexOf(str[last..], '=');
            && key <= |str|
            && (key == |str| ==> Parse(str[last..], flag, trim) == [])
            && (key < |str| ==>
                  var pos := key + IndexOf(str[key..], flag);
                  && key < pos <= |str|
                  && var first := Entry(TrimIf(trim, str[last..key]), Decode(str[key + 1..pos], true));
                     Parse(str[last..], flag, trim)
                     == if pos == |str| then [first] else [first] + Parse(str[pos + 1..], flag, trim))
  {
    hide Decode, TrimIf, Parse, IndexOf;
    var rest, k := str[last..], IndexOf(str[last..], '=');
    if last + k < |str| {
      assert rest[k..] == str[last + k..];
      var end := k + IndexOf(rest[k..], flag);
      ParseIs(rest, flag, trim, k, end);
      assert rest[k + 1..end] == str[last + k + 1..last + end] && rest[..k] == str[last..last + k];
      if last + end < |str| {
        assert rest[end + 1..] == str[last + end + 1..];
      }
    } else {
      ParseNone(rest, flag, trim);
    }
  }

  lemma ParseNone(s: string, flag: char, trim: bool)
    requires flag != '=' && IndexOf(s, '=') == |s|
    ensures Parse(s, flag, trim) == []
  {
  }
}
