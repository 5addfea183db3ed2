/** Which connection values name "close", "keep-alive" or "upgrade", described by their text. */
module HttpConnection {
  import opened CaseMap
  import opened HttpChars
  import opened HttpTypes
  import opened HttpStep
  import opened HttpInvariant
  import opened HttpHeaderLines

  // ---- the text ----

  /** What is passed over before a word. The bytes are lowered first, which makes a blank of NUL, and ')' of a tab. */
  predicate IsBlank(c: char) {
    c == ' ' || c == '\0'
  }

  function SkipSpaces(w: string): (r: string)
    ensures |r| <= |w|
  {
    if w == [] || w[0] != ' ' then w else SkipSpaces(w[1..])
  }

  function SkipBlanks(w: string): (r: string)
    ensures |r| <= |w|
  {
    if w == [] || !IsBlank(w[0]) then w else SkipBlanks(w[1..])
  }

  /** How many bytes of `w` spell the beginning of `word`, in any case. */
  function Spelled(w: string, word: string): (n: nat)
    ensures n <= |w| && n <= |word|
  {
    if w == [] || word == [] || Lower(w[0]) != word[0] then 0 else 1 + Spelled(w[1..], word[1..])
  }

  predicate IsKeyword(k: string) {
    k == "keep-alive" || k == "close" || k == "upgrade"
  }

  /** The one keyword a first letter can begin. */
  function Keyword(c: char): string {
    if c == 'k' || c == 'K' then "keep-alive"
    else if c == 'c' || c == 'C' then "close"
    else if c == 'u' || c == 'U' then "upgrade"
    else []
  }

  /** A word is the keyword `t`, or one behind it is. The word ends at a comma; but a comma directly behind a
      proper beginning of a keyword is lost, and the word goes on up to the next one. */
  predicate WordNames(w: string, t: string)
    requires w != []
    decreases |w|, 0
  {
    var k := Keyword(w[0]);
    var n := Spelled(w, k);
    if k == [] then BehindComma(w[1..], t)
    else if n == |k| then KeywordNames(k, w[n..], t)
    else if n == |w| then false
    else BehindComma(w[n + 1..], t)
  }

  /** Behind a keyword: spaces, then the end or a comma; anything else makes it a longer word. */
  predicate KeywordNames(k: string, w: string, t: string)
    decreases |w|, 2
  {
    var r := SkipSpaces(w);
    if r == [] then k == t
    else if r[0] == ',' then k == t || ListNames(r[1..], t)
    else BehindComma(r, t)
  }

  /** The words behind the next comma. */
  predicate BehindComma(w: string, t: string)
    decreases |w|, 1
  {
    if w == [] then false else if w[0] == ',' then ListNames(w[1..], t) else BehindComma(w[1..], t)
  }

  /** A word behind a comma, with the blanks before it. Where no word can start, reading the list ends: an empty word
      hides all that follow. */
  predicate ListNames(w: string, t: string)
    decreases |w|, 1
  {
    var r := SkipBlanks(w);
    r != [] && IsToken(Lower(r[0])) && WordNames(r, t)
  }

  /** The connection value names the keyword `t`. */
  predicate TextNames(v: string, t: string) {
    v != [] && WordNames(v, t)
  }

  // ---- the matcher ----

  /** The header state behind a whole keyword. */
  function DoneOf(t: string): HState
    requires IsKeyword(t)
  {
    if t == "keep-alive" then ConnectionKeepAlive else if t == "close" then ConnectionClose else ConnectionUpgrade
  }

  /** From this place in a word, the matcher completes the keyword `t` at a comma of `w` or at its end. */
  predicate Reaches(x: Scan, w: string, t: string)
    requires IsKeyword(t)
    decreases |w|
  {
    x.Scan? &&
    if w == [] then x.hs == DoneOf(t)
    else (x.hs == DoneOf(t) && w[0] == ',') || Reaches(ValueNext(x, w[0]), w[1..], t)
  }

  lemma {:induction false} GeneralReaches(x: Scan, w: string, t: string)
    requires IsKeyword(t)
    requires x.Scan? && x.hs.General?
    ensures !Reaches(x, w, t)
    decreases |w|
  {
    if w == [] {
    } else {
      GeneralReaches(ValueNext(x, w[0]), w[1..], t);
    }
  }

  lemma {:induction false} TokenReaches(x: Scan, w: string, t: string)
    requires IsKeyword(t)
    requires x.Scan? && x.hs.MatchingConnectionToken?
    ensures Reaches(x, w, t) <==> BehindComma(w, t)
    decreases |w|, 1
  {
    hide Lower, IsToken, WordNames, KeywordNames, ListNames;
    if w == [] {
    } else if w[0] == ',' {
      StartReaches(ValueNext(x, w[0]), w[1..], t);
    } else {
      TokenReaches(x, w[1..], t);
    }
  }

  /** The place behind `n` letters of a keyword. */
  predicate Within(x: Scan, k: string, n: nat) {
    && x.Scan? && x.index == n - 1
    && ((k == "keep-alive" && x.hs.MatchingConnectionKeepAlive?) || (k == "close" && x.hs.MatchingConnectionClose?)
        || (k == "upgrade" && x.hs.MatchingConnectionUpgrade?))
  }

  /** The place behind a whole keyword. */
  predicate Behind(x: Scan, k: string) {
    x.Scan? && IsKeyword(k) && x.hs == DoneOf(k)
  }

  lemma {:induction false} BehindReaches(x: Scan, k: string, w: string, t: string)
    requires IsKeyword(t)
    requires Behind(x, k)
    ensures Reaches(x, w, t) <==> KeywordNames(k, w, t)
    decreases |w|, 2
  {
    hide Lower, IsToken, WordNames, ListNames;
    KeywordsDiffer();
    if w == [] {
    } else if w[0] == ' ' {
      BehindReaches(x, k, w[1..], t);
    } else if w[0] == ',' {
      StartReaches(ValueNext(x, w[0]), w[1..], t);
    } else {
      TokenReaches(ValueNext(x, w[0]), w[1..], t);
    }
  }

  lemma KeywordsDiffer()
    ensures "keep-alive" != "upgrade" && "close" != "upgrade" && "keep-alive" != "close"
  {
  }

  lemma WithinNext(x: Scan, k: string, n: nat, c: char)
    requires Within(x, k, n) && 0 < n < |k|
    ensures var y := ValueNext(x, c);
            if Lower(c) != k[n] then y.Scan? && y.hs.MatchingConnectionToken?
            else if n + 1 == |k| then Behind(y, k)
            else Within(y, k, n + 1)
  {
    hide Lower;
  }

  lemma {:induction false} WithinReaches(x: Scan, k: string, n: nat, w: string, t: string)
    requires IsKeyword(t)
    requires Within(x, k, n) && 0 < n < |k|
    ensures var m := Spelled(w, k[n..]);
            Reaches(x, w, t) <==> if m == |k| - n then KeywordNames(k, w[m..], t)
                               else if m == |w| then false else BehindComma(w[m + 1..], t)
    decreases |w|, 3
  {
    hide Lower, IsToken, ValueNext, WordNames, KeywordNames, BehindComma, ListNames;
    if w == [] {
    } else {
      var y := ValueNext(x, w[0]);
      WithinNext(x, k, n, w[0]);
      assert k[n..][1..] == k[n + 1..];
      if Lower(w[0]) != k[n] {
        TokenReaches(y, w[1..], t);
      } else if n + 1 == |k| {
        BehindReaches(y, k, w[1..], t);
      } else {
        WithinReaches(y, k, n + 1, w[1..], t);
        var m := Spelled(w[1..], k[n + 1..]);
        assert w[1..][m..] == w[m + 1..];
        assert m < |w[1..]| ==> w[1..][m + 1..] == w[m + 2..];
      }
    }
  }

  /** The first letter of a word has been read. */
  lemma WordReaches(x: Scan, w: string, t: string)
    requires IsKeyword(t)
    requires w != [] && x.Scan?
    requires if Keyword(w[0]) == [] then x.hs.MatchingConnectionToken? else Within(x, Keyword(w[0]), 1)
    ensures Reaches(x, w[1..], t) <==> WordNames(w, t)
    decreases |w|, 0
  {
    hide Lower, IsToken, ValueNext, Reaches, KeywordNames, BehindComma, ListNames;
    var k := Keyword(w[0]);
    if k == [] {
      TokenReaches(x, w[1..], t);
    } else {
      KeywordStarts(w[0]);
      WithinReaches(x, k, 1, w[1..], t);
      var m := Spelled(w[1..], k[1..]);
      assert w[1..][m..] == w[m + 1..];
      assert m < |w[1..]| ==> w[1..][m + 1..] == w[m + 2..];
    }
  }

  lemma KeywordStarts(c: char)
    requires Keyword(c) != []
    ensures |Keyword(c)| > 1 && Keyword(c)[0] == Lower(c)
  {
  }

  lemma {:induction false} StartReaches(x: Scan, w: string, t: string)
    requires IsKeyword(t)
    requires x.Scan? && x.hs.MatchingConnectionTokenStart? && x.index == 0
    ensures Reaches(x, w, t) <==> ListNames(w, t)
    decreases |w|, 1
  {
    hide Lower, IsToken, WordNames;
    if w == [] {
    } else {
      var y := ValueNext(x, w[0]);
      StartNext(x, w[0]);
      if IsBlank(w[0]) {
        StartReaches(x, w[1..], t);
      } else if !IsToken(Lower(w[0])) {
        GeneralReaches(y, w[1..], t);
      } else {
        WordReaches(y, w, t);
      }
    }
  }

  /** The first byte behind a comma. */
  lemma StartNext(x: Scan, c: char)
    requires x.Scan? && x.hs.MatchingConnectionTokenStart? && x.index == 0
    ensures var y := ValueNext(x, c);
            && y.Scan?
            && (if IsBlank(c) then y == x
                else if !IsToken(Lower(c)) then y.hs.General?
                else if Keyword(c) == [] then y.hs.MatchingConnectionToken? else Within(y, Keyword(c), 1))
  {
  }

  lemma FirstNext(c: char)
    ensures var x := ScanValue(HState.Connection, NO_FLAGS, NO_LENGTH, [c]);
            && x.Scan?
            && if Keyword(c) == [] then x.hs.MatchingConnectionToken? else Within(x, Keyword(c), 1)
  {
  }

  /** What the matcher has done behind `i` bytes and what it will do with the rest. */
  lemma {:induction false} NamesFrom(v: string, i: nat, t: string)
    requires 0 < i <= |v| && IsKeyword(t)
    ensures NamesWord(v, DoneOf(t)) <==>
              EndsAtComma(v[..i], DoneOf(t)) || Reaches(ScanValue(HState.Connection, NO_FLAGS, NO_LENGTH, v[..i]), v[i..], t)
    decreases |v| - i
  {
    hide ValueNext, ValueStart, PlainValueState, NamesWord, EndsAtComma, DoneOf;
    ScanConnection(NO_FLAGS, v[..i]);
    if i == |v| {
      assert v[..i] == v;
      NamesWordSplit(v, DoneOf(t));
    } else {
      NamesFrom(v, i + 1, t);
      assert v[..i + 1] == v[..i] + [v[i]] && v[..i + 1][..i] == v[..i] && v[i..][1..] == v[i + 1..];
      CommaLater(v[..i], v[i], DoneOf(t));
    }
  }

  /** The parser takes a connection value for naming a keyword exactly when its text does. */
  lemma NamesByText(v: string, t: string)
    requires IsKeyword(t)
    ensures NamesWord(v, DoneOf(t)) <==> TextNames(v, t)
  {
    hide EndsAtComma, Reaches, WordNames, ScanValue, DoneOf;
    if v == [] {
    } else {
      hide NamesWord;
      assert v[..1] == [v[0]];
      NamesFrom(v, 1, t);
      NoCommaYet(v[..1]);
      FirstNext(v[0]);
      WordReaches(ScanValue(HState.Connection, NO_FLAGS, NO_LENGTH, [v[0]]), v, t);
    }
  }


  /** Some connection or proxy-connection line names the keyword. */
  predicate SomeLineNames(hs: seq<Entry>, t: string) {
    exists i :: 0 <= i < |hs| && IsConnectionName(hs[i].key) && TextNames(hs[i].value, t)
  }

  lemma LinesByText(hs: seq<Entry>, t: string)
    requires IsKeyword(t)
    ensures SomeLineAsks(hs, DoneOf(t)) <==> SomeLineNames(hs, t)
  {
    hide NamesWord, TextNames, IsConnectionName, DoneOf;
    forall i | 0 <= i < |hs| ensures NamesWord(hs[i].value, DoneOf(t)) <==> TextNames(hs[i].value, t) {
      NamesByText(hs[i].value, t);
    }
    forall i | 0 <= i < |hs| && IsConnectionName(hs[i].key) && TextNames(hs[i].value, t) ensures AsksFor(hs[i], DoneOf(t)) {
    }
  }

  /** Header lines ask for another protocol exactly when some connection or proxy-connection value names upgrade in
      its text and some upgrade header has a value. */
  lemma SwitchesByText(hs: seq<Entry>)
    ensures SwitchesProtocol(hs) <==> SomeLineNames(hs, "upgrade") && exists i :: 0 <= i < |hs| && HasProtocol(hs[i])
  {
    hide HasProtocol, AsksFor, SomeLineNames;
    LinesByText(hs, "upgrade");
  }

  // ---- lists that do not name upgrade though the word stands in them ----

  lemma {:induction false} SpelledIs(a: string, x: string, y: string)
    requires forall i :: 0 <= i < |a| ==> Lower(a[i]) == a[i]
    requires x != [] && y != [] ==> Lower(x[0]) != y[0]
    ensures Spelled(a + x, a + y) == |a|
  {
    hide Lower;
    if a == [] {
      assert a + x == x && a + y == y;
    } else {
      assert (a + x)[1..] == a[1..] + x && (a + y)[1..] == a[1..] + y;
      SpelledIs(a[1..], x, y);
    }
  }

  lemma Letters()
    ensures forall i :: 0 <= i < |"close"| ==> Lower("close"[i]) == "close"[i]
    ensures forall i :: 0 <= i < |"keep"| ==> Lower("keep"[i]) == "keep"[i]
    ensures Keyword('c') == "close" && Keyword('k') == "keep-alive" && Lower(',') == ',' && Lower('\t') == ')'
    ensures !IsToken(',') && !IsToken(')')
  {
  }

  /** An empty word, or a tab, behind "close," hides whatever follows. */
  lemma EmptyWordHides(c: char, rest: string)
    requires c == ',' || c == '\t'
    ensures !TextNames("close" + [',', c] + rest, "upgrade")
  {
    hide Lower, IsToken;
    Letters();
    var w, tail := "close" + [',', c] + rest, [',', c] + rest;
    assert w == "close" + tail && "close" + [] == "close" && w[0] == 'c';
    SpelledIs("close", tail, []);
    assert Spelled(w, "close") == |"close"| && w[|"close"|..] == tail;
    KeywordsDiffer();
    NoWord(c, rest);
    assert SkipSpaces(tail) == tail && tail[0] == ',' && tail[1..] == [c] + rest;
    assert !KeywordNames("close", tail, "upgrade");
  }

  lemma NoWord(c: char, rest: string)
    requires c == ',' || c == '\t'
    ensures !ListNames([c] + rest, "upgrade")
  {
    hide Lower, IsToken, WordNames;
    Letters();
    assert SkipBlanks([c] + rest) == [c] + rest;
  }

  /** The comma directly behind a keyword broken off is lost, and with it the next word. */
  lemma CommaLost(rest: string)
    requires ',' !in rest
    ensures !TextNames("keep," + rest, "upgrade")
  {
    hide Lower, IsToken;
    Letters();
    var w, tail := "keep," + rest, "," + rest;
    assert w == "keep" + tail && "keep" + "-alive" == "keep-alive" && w[0] == 'k';
    SpelledIs("keep", tail, "-alive");
    assert Spelled(w, "keep-alive") == 4 < |w|;
    assert w[4 + 1..] == rest && |"keep-alive"| == 10;
    NothingBehind(rest);
  }

  lemma {:induction false} NothingBehind(w: string)
    requires ',' !in w
    ensures !BehindComma(w, "upgrade")
  {
    hide ListNames;
    if w == [] {
    } else {
      NothingBehind(w[1..]);
    }
  }

  // ---- single words ----

  lemma KeywordLetters(k: string)
    requires IsKeyword(k)
    ensures |k| > 0 && Keyword(k[0]) == k && forall i :: 0 <= i < |k| ==> Lower(k[i]) == k[i]
  {
  }

  /** A value that is one keyword names that keyword and no other. */
  lemma WholeWord(k: string, t: string)
    requires IsKeyword(k)
    ensures TextNames(k, t) <==> k == t
  {
    hide Lower, IsToken, Keyword, IsKeyword;
    KeywordLetters(k);
    SpelledIs(k, [], []);
    assert k + [] == k && Spelled(k, k) == |k| && k[|k|..] == [];
    assert SkipSpaces([]) == [];
    assert KeywordNames(k, [], t) <==> k == t;
    assert WordNames(k, t) <==> KeywordNames(k, [], t);
  }
}
