/** Character classes of the HTTP/1.x parser in its strict build. A `char` below 256 stands for one byte. */
module HttpChars {

  const CR := '\r'
  const LF := '\n'

  /** `c | 0x20`: sets bit 5, which lowers letters and also moves some punctuation. */
  function Lower(c: char): char {
    if c as int < 256 && (c as int / 32) % 2 == 0 then (c as int + 32) as char else c
  }

  predicate IsAlpha(c: char) {
    'a' <= Lower(c) <= 'z'
  }

  predicate IsNum(c: char) {
    '0' <= c <= '9'
  }

  predicate IsAlphaNum(c: char) {
    IsAlpha(c) || IsNum(c)
  }

  predicate IsHex(c: char) {
    IsNum(c) || 'a' <= Lower(c) <= 'f'
  }

  predicate IsMark(c: char) {
    c in "-_.!~*'()"
  }

  predicate IsUserInfoChar(c: char) {
    IsAlphaNum(c) || IsMark(c) || c in "%;:&=+$,"
  }

  predicate IsHostChar(c: char) {
    IsAlphaNum(c) || c == '.' || c == '-'
  }

  /** The `tokens` table: 0 for a byte that cannot occur in a token, else the byte with letters lowered. */
  function Token(c: char): char {
    if 'A' <= c <= 'Z' then Lower(c)
    else if 'a' <= c <= 'z' || IsNum(c) || c in "!#$%&'*+-.^_`|~" then c
    else '\0'
  }

  predicate IsToken(c: char) {
    Token(c) != '\0'
  }

  /** The `normal_url_char` bit table of the strict build: printable ASCII except '#' and '?'. */
  predicate IsUrlChar(c: char) {
    '!' <= c <= '~' && c != '#' && c != '?'
  }

  predicate IsHeaderChar(c: char) {
    c == CR || c == LF || c == '\t' || (c > '\U{001F}' && c != '\U{007F}')
  }

  /** The `unhex` table. Only its first 128 entries are written out, so C fills the others with 0: a
      byte from 0x80 up is taken for the digit zero. */
  function Unhex(c: char): int {
    if '0' <= c <= '9' then c as int - '0' as int
    else if 'A' <= c <= 'F' then c as int - 'A' as int + 10
    else if 'a' <= c <= 'f' then c as int - 'a' as int + 10
    else if c as int >= 128 then 0
    else -1
  }

  function Digit(c: char): nat
    requires IsNum(c)
  {
    c as int - '0' as int
  }

  // ---- the classes, by their letters ----

  const UPPER := "ABCDEFGHIJKLMNOPQRSTUVWXYZ"
  const SMALL := "abcdefghijklmnopqrstuvwxyz"
  const DIGITS := "0123456789"

  /** Letters are compared without their case. */
  lemma CaseOfLetters(i: nat)
    requires i < 26
    ensures Lower(UPPER[i]) == Lower(SMALL[i]) == SMALL[i] && Token(UPPER[i]) == Token(SMALL[i]) == SMALL[i]
  {
    NthUpper(i);
    NthSmall(i);
    hide UPPER, SMALL;
  }

  lemma NthUpper(i: nat)
    requires i < 26
    ensures UPPER[i] as int == 'A' as int + i
  {
  }

  lemma NthSmall(i: nat)
    requires i < 26
    ensures SMALL[i] as int == 'a' as int + i
  {
  }

  lemma LettersAre(c: char)
    ensures c in UPPER <==> 'A' <= c <= 'Z'
    ensures c in SMALL <==> 'a' <= c <= 'z'
    ensures c in DIGITS <==> '0' <= c <= '9'
  {
    hide *;
    UpperAre(c);
    SmallAre(c);
    DigitsAre(c);
  }

  lemma UpperAre(c: char)
    ensures c in UPPER <==> 'A' <= c <= 'Z'
  {
    if 'A' <= c <= 'Z' {
      assert UPPER[c as int - 'A' as int] == c;
    }
  }

  lemma SmallAre(c: char)
    ensures c in SMALL <==> 'a' <= c <= 'z'
  {
    if 'a' <= c <= 'z' {
      assert SMALL[c as int - 'a' as int] == c;
    }
  }

  lemma DigitsAre(c: char)
    ensures c in DIGITS <==> '0' <= c <= '9'
  {
    if '0' <= c <= '9' {
      assert DIGITS[c as int - '0' as int] == c;
    }
  }

  /** The token bytes of section 3.2.6 of RFC 7230. */
  lemma TokenAlphabet(c: char)
    ensures IsToken(c) <==> c in UPPER || c in SMALL || c in DIGITS || c in "!#$%&'*+-.^_`|~"
  {
    LettersAre(c);
    hide UPPER, SMALL, DIGITS;
  }

  /** The bytes of a header value, of section 3.2 of RFC 7230: visible ones, blanks, and those above ASCII. */
  lemma ValueAlphabet(c: char)
    requires c != CR && c != LF
    ensures IsHeaderChar(c) <==> c == '\t' || ' ' <= c <= '~' || c as int >= 128
  {
  }

  /** Hexadecimal digits of both cases have their values. */
  lemma HexDigits(i: nat)
    requires i < 16
    ensures Unhex("0123456789abcdef"[i]) == i && Unhex("0123456789ABCDEF"[i]) == i
    ensures IsHex("0123456789abcdef"[i]) && IsHex("0123456789ABCDEF"[i])
  {
    if i < 10 {
      assert "0123456789abcdef"[i] == "0123456789ABCDEF"[i] == ('0' as int + i) as char;
    } else {
      assert "0123456789abcdef"[i] == ('a' as int + i - 10) as char;
      assert "0123456789ABCDEF"[i] == ('A' as int + i - 10) as char;
    }
  }

  /** No other byte is a hexadecimal digit. */
  lemma HexAlphabet(c: char)
    ensures IsHex(c) <==> c in DIGITS || c in "abcdefABCDEF"
  {
    LettersAre(c);
    hide UPPER, SMALL, DIGITS;
  }
}
