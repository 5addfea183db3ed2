/** The header-name recogniser and the "chunked" recogniser are exact. */
module HttpNames {
  import opened Wrappers
  import opened HttpChars
  import opened HttpTypes
  import opened HttpStep
  import opened HttpRun

  /** The bytes of a name as the recogniser sees them: letters lowered, 0 for what is no token byte. */
  function Tokens(name: string): string {
    seq(|name|, i requires 0 <= i < |name| => Token(name[i]))
  }

  predicate IsName(name: string) {
    name != [] && forall i :: 0 <= i < |name| ==> IsToken(name[i])
  }

  predicate Pre(n: string, word: string) {
    |n| <= |word| && n == word[..|n|]
  }

  lemma PreSnoc(n: string, c: char, word: string)
    ensures Pre(n + [c], word) <==> Pre(n, word) && |n| < |word| && word[|n|] == c
  {
    if |n| < |word| {
      assert word[..|n| + 1] == word[..|n|] + [word[|n|]];
      if Pre(n + [c], word) {
        assert (n + [c])[..|n|] == n && (n + [c])[|n|] == c;
        assert word[..|n| + 1][..|n|] == word[..|n|];
      }
    }
  }

  /** The matcher for `word`, by how much of it has been read. */
  function Matching(n: string, word: string, going: HState, done: HState): HState {
    if |n| == |word| then done else going
  }

  /** The header state as a function of the name read so far. */
  function NameState(n: string): HState {
    if Pre(n, CONNECTION) && |n| == 1 then C
    else if Pre(n, CONNECTION) && |n| == 2 then CO
    else if Pre(n, CONNECTION) && |n| == 3 then CON
    else if Pre(n, CONNECTION) then Matching(n, CONNECTION, MatchingConnection, Connection)
    else if Pre(n, CONTENT_LENGTH) then Matching(n, CONTENT_LENGTH, MatchingContentLength, ContentLength)
    else if Pre(n, PROXY_CONNECTION) then Matching(n, PROXY_CONNECTION, MatchingProxyConnection, Connection)
    else if Pre(n, TRANSFER_ENCODING) then Matching(n, TRANSFER_ENCODING, MatchingTransferEncoding, TransferEncoding)
    else if Pre(n, UPGRADE) then Matching(n, UPGRADE, MatchingUpgrade, Upgrade)
    else General
  }

  predicate StillMatching(hs: HState) {
    hs.C? || hs.CO? || hs.CON? || hs.MatchingConnection? || hs.MatchingContentLength? || hs.MatchingProxyConnection?
    || hs.MatchingTransferEncoding? || hs.MatchingUpgrade?
  }

  lemma Words()
    ensures |CONNECTION| == 10 && |CONTENT_LENGTH| == 14 && |PROXY_CONNECTION| == 16 && |TRANSFER_ENCODING| == 17
    ensures |UPGRADE| == 7
    ensures CONNECTION[..4] == "conn" && CONTENT_LENGTH[..4] == "cont"
    ensures PROXY_CONNECTION[0] == 'p' && TRANSFER_ENCODING[0] == 't' && UPGRADE[0] == 'u'
  {
  }

  /** A name is a prefix of at most one keyword, except for what "connection" and "content-length" share. */
  lemma OnePrefix(n: string)
    requires n != []
    ensures Pre(n, CONNECTION) || Pre(n, CONTENT_LENGTH) ==>
              !Pre(n, PROXY_CONNECTION) && !Pre(n, TRANSFER_ENCODING) && !Pre(n, UPGRADE)
    ensures Pre(n, PROXY_CONNECTION) ==> !Pre(n, TRANSFER_ENCODING) && !Pre(n, UPGRADE)
    ensures Pre(n, TRANSFER_ENCODING) ==> !Pre(n, UPGRADE)
    ensures |n| <= 3 ==> (Pre(n, CONNECTION) <==> Pre(n, CONTENT_LENGTH))
    ensures |n| >= 4 ==> !(Pre(n, CONNECTION) && Pre(n, CONTENT_LENGTH))
  {
    Words();
    assert CONNECTION[0] == CONNECTION[..4][0] && CONTENT_LENGTH[0] == CONTENT_LENGTH[..4][0];
    if |n| <= 3 {
      assert CONNECTION[..|n|] == CONNECTION[..4][..|n|] == "con"[..|n|] == CONTENT_LENGTH[..4][..|n|] == CONTENT_LENGTH[..|n|];
    } else {
      assert CONNECTION[3] == CONNECTION[..4][3] && CONTENT_LENGTH[3] == CONTENT_LENGTH[..4][3];
    }
  }

  /** One byte more. */
  lemma NameStep(n: string, index: nat, c: char)
    requires n != [] && c != '\0' && (StillMatching(NameState(n)) ==> index == |n| - 1)
    ensures var (hs, index') := FieldNext(NameState(n), index, c);
            && hs == NameState(n + [c])
            && (StillMatching(hs) ==> index' == |n|)
  {
    hide CONNECTION, CONTENT_LENGTH, PROXY_CONNECTION, TRANSFER_ENCODING, UPGRADE, Pre;
    Words();
    OnePrefix(n);
    OnePrefix(n + [c]);
    PreSnoc(n, c, CONNECTION);
    PreSnoc(n, c, CONTENT_LENGTH);
    PreSnoc(n, c, PROXY_CONNECTION);
    PreSnoc(n, c, TRANSFER_ENCODING);
    PreSnoc(n, c, UPGRADE);
    assert CONNECTION[1] == CONNECTION[..4][1] && CONNECTION[2] == CONNECTION[..4][2] && CONNECTION[3] == CONNECTION[..4][3];
    assert CONTENT_LENGTH[3] == CONTENT_LENGTH[..4][3];
    PreShort(n);
  }

  lemma PreShort(n: string)
    ensures Pre(n, CONNECTION) ==> |n| <= |CONNECTION|
    ensures Pre(n, CONTENT_LENGTH) ==> |n| <= |CONTENT_LENGTH|
    ensures Pre(n, PROXY_CONNECTION) ==> |n| <= |PROXY_CONNECTION|
    ensures Pre(n, TRANSFER_ENCODING) ==> |n| <= |TRANSFER_ENCODING|
    ensures Pre(n, UPGRADE) ==> |n| <= |UPGRADE|
  {
  }

  lemma NameStart(c: char)
    ensures FirstHState(c) == NameState([c])
  {
    assert CONNECTION[..1] == "c" && CONTENT_LENGTH[..1] == "c" && PROXY_CONNECTION[..1] == "p";
    assert TRANSFER_ENCODING[..1] == "t" && UPGRADE[..1] == "u";
  }

  // ---- runs over a name ----

  function InName(s: Parser, n: nat, hs: HState, index: nat): Parser {
    s.(state := HeaderField, nread := n, hs := hs, index := index)
  }

  lemma NameStartByte(st: Settings, s: Parser, ch: char)
    requires s.state.HeaderFieldStart? && s.nread < MAX_HEADER_SIZE && IsToken(ch)
    ensures Step(st, s, ch) == Marking(InName(s, s.nread + 1, FirstHState(Token(ch)), 0), Field)
  {
    hide Dispatch, FirstHState, IsToken, Token;
    var t := s.(nread := s.nread + 1);
    DispatchFieldStart(st, t, ch);
    NotTokens();
  }

  lemma NotTokens()
    ensures !IsToken(CR) && !IsToken(LF) && !IsToken(':')
  {
  }

  lemma DispatchFieldStart(st: Settings, s: Parser, ch: char)
    requires s.state.HeaderFieldStart?
    ensures Dispatch(st, s, ch) == FieldStartByte(st, s, ch)
  {
    hide FieldStartByte;
  }

  lemma NameDispatch(st: Settings, s: Parser, ch: char)
    requires s.state.HeaderField?
    ensures Dispatch(st, s, ch) == FieldByte(s, ch) && OpenKind(s.state) == Some(Field)
  {
    hide FieldByte;
  }

  lemma NameByte(st: Settings, s: Parser, n: nat, hs: HState, index: nat, ch: char)
    requires n < MAX_HEADER_SIZE && IsToken(ch)
    ensures var (hs', index') := FieldNext(hs, index, Token(ch));
            Step(st, InName(s, n, hs, index), ch) == Go(InName(s, n + 1, hs', index'), SILENT)
    ensures OpenKind(InName(s, n, hs, index).state) == Some(Field)
  {
    hide FieldNext;
  }

  lemma NameColon(st: Settings, s: Parser, n: nat, hs: HState, index: nat)
    requires n < MAX_HEADER_SIZE
    ensures Step(st, InName(s, n, hs, index), ':') == Closing(InName(s, n + 1, hs, index), Field, HeaderValueDiscardWs)
    ensures OpenKind(InName(s, n, hs, index).state) == Some(Field)
  {
    hide Dispatch, OpenKind, IsToken, Token, FieldNext;
    NotTokens();
    NameDispatch(st, InName(s, n, hs, index), ':');
    NameDispatch(st, InName(s, n + 1, hs, index), ':');
  }

  lemma {:induction false} NameRun(st: Settings, m: Machine, s: Parser, name: string) returns (index: nat)
    requires m.out.Going? && m.s == s && s.state.HeaderFieldStart? && IsName(name) && s.nread + |name| <= MAX_HEADER_SIZE
    ensures var hs := NameState(Tokens(name));
            && Run(st, m, name) == Machine(InName(s, s.nread + |name|, hs, index), Push(m.log, Data(Field, name, false)),
                                           m.n + |name|, Going)
            && (StillMatching(hs) ==> index == |name| - 1)
    decreases |name|
  {
    hide Step, Run, Push, FirstHState, FieldNext, NameState, InName, Token;
    var init, ch := name[..|name| - 1], name[|name| - 1];
    assert name == init + [ch];
    assert Tokens(name) == Tokens(init) + [Token(ch)];
    if init == [] {
      assert name == [ch] && Tokens(name) == [Token(ch)];
      NameStart(Token(ch));
      NameStartByte(st, s, ch);
      RunNil(st, m);
      index := 0;
      RunMark(st, m, [], ch, InName(s, s.nread + 1, FirstHState(Token(ch)), 0), Field);
      assert Tokens(init) == [];
    } else {
      var before := NameRun(st, m, s, init);
      var hs, n := NameState(Tokens(init)), s.nread + |init|;
      NameStep(Tokens(init), before, Token(ch));
      NameByte(st, s, n, hs, before, ch);
      index := FieldNext(hs, before, Token(ch)).1;
      RunData(st, m, init, ch, InName(s, n + 1, NameState(Tokens(name)), index), Field, m.log, init);
    }
  }

  /** The recogniser is exact: behind the colon the header state names a header the parser acts on exactly
      when the whole name is that header's, letters taken without their case; and the name is reported whole. */
  lemma HeaderNameExact(st: Settings, m: Machine, s: Parser, name: string) returns (index: nat)
    requires m.out.Going? && m.s == s && s.state.HeaderFieldStart? && IsName(name) && s.nread + |name| < MAX_HEADER_SIZE
    ensures var hs, lower := NameState(Tokens(name)), Tokens(name);
            && Run(st, m, name + [':'])
               == Machine(InName(s, s.nread + |name| + 1, hs, index).(state := HeaderValueDiscardWs),
                          Push(m.log, Data(Field, name, true)), m.n + |name| + 1, Going)
            && (hs == ContentLength <==> lower == "content-length")
            && (hs == TransferEncoding <==> lower == "transfer-encoding")
            && (hs == Connection <==> lower == "connection" || lower == "proxy-connection")
            && (hs == Upgrade <==> lower == "upgrade")
  {
    hide Step, Run, Push, InName, FieldNext, Token;
    index := NameRun(st, m, s, name);
    var hs := NameState(Tokens(name));
    NameColon(st, s, s.nread + |name|, hs, index);
    RunClose(st, m, name, ':', InName(s, s.nread + |name| + 1, hs, index), Field, HeaderValueDiscardWs, m.log, name);
    WholeName(Tokens(name));
  }

  lemma WholeName(n: string)
    ensures NameState(n) == ContentLength <==> n == CONTENT_LENGTH
    ensures NameState(n) == TransferEncoding <==> n == TRANSFER_ENCODING
    ensures NameState(n) == Connection <==> n == CONNECTION || n == PROXY_CONNECTION
    ensures NameState(n) == Upgrade <==> n == UPGRADE
  {
    hide CONNECTION, CONTENT_LENGTH, PROXY_CONNECTION, TRANSFER_ENCODING, UPGRADE;
    Words();
    OnePrefixes();
    if n != [] {
      OnePrefix(n);
    }
  }

  lemma OnePrefixes()
    ensures forall w <- [CONNECTION, CONTENT_LENGTH, PROXY_CONNECTION, TRANSFER_ENCODING, UPGRADE] :: w[..|w|] == w
  {
  }

  // ---- the value "chunked" ----

  function LowerAll(v: string): string {
    seq(|v|, i requires 0 <= i < |v| => Lower(v[i]))
  }

  /** "chunked" without regard to case, followed by nothing but spaces. */
  predicate IsChunkedValue(v: string) {
    |v| >= 7 && LowerAll(v[..7]) == "chunked" && forall i :: 7 <= i < |v| ==> v[i] == ' '
  }

  /** The header state inside a transfer-encoding value. */
  function ChunkedState(v: string): HState {
    if |v| < 7 && Pre(LowerAll(v), CHUNKED) then MatchingTransferEncodingChunked
    else if IsChunkedValue(v) then TransferEncodingChunked
    else General
  }

  lemma ChunkedStart(c: char)
    ensures ValueStart(TransferEncoding, Lower(c)) == ChunkedState([c])
  {
    assert CHUNKED[..1] == "c";
    assert LowerAll([c]) == [Lower(c)];
  }

  lemma ChunkedNext(v: string, x: Scan, c: char)
    requires v != [] && x.Scan? && x.hs == ChunkedState(v)
    requires x.hs == MatchingTransferEncodingChunked ==> x.index == |v| - 1
    ensures var y := ValueNext(x, c);
            && y.Scan? && y.hs == ChunkedState(v + [c]) && y.flags == x.flags && y.length == x.length
            && (y.hs == MatchingTransferEncodingChunked ==> y.index == |v|)
  {
    assert LowerAll(v + [c]) == LowerAll(v) + [Lower(c)];
    PreSnoc(LowerAll(v), Lower(c), CHUNKED);
    assert CHUNKED[..7] == CHUNKED;
    LowerNotNul(c);
    if |v| < 7 {
      if |v| == 6 {
        assert (v + [c])[..7] == v + [c];
      }
    } else {
      assert (v + [c])[..7] == v[..7];
      assert (v + [c])[|v|] == c;
      if IsChunkedValue(v + [c]) {
        assert forall i :: 7 <= i < |v| ==> v[i] == (v + [c])[i];
      }
    }
  }

  lemma LowerNotNul(c: char)
    ensures Lower(c) != '\0'
  {
  }

  predicate IsValue(v: string, lenient: bool) {
    forall i :: 0 <= i < |v| ==> v[i] != CR && v[i] != LF && (lenient || IsHeaderChar(v[i]))
  }

  function InValue(s: Parser, n: nat, hs: HState, index: nat): Parser {
    s.(state := HeaderValue, nread := n, hs := hs, index := index)
  }

  lemma ChunkedStartByte(st: Settings, s: Parser, ch: char)
    requires s.state.HeaderValueDiscardWs? && s.hs.TransferEncoding? && s.nread < MAX_HEADER_SIZE
    requires ch != ' ' && ch != '\t' && ch != CR && ch != LF
    ensures Step(st, s, ch) == Marking(InValue(s, s.nread + 1, ChunkedState([ch]), 0), Value)
  {
    hide ValueStart, Lower, ChunkedState;
    ChunkedStart(ch);
    assert s.flags.(upgrade := s.flags.upgrade, contentLength := s.flags.contentLength) == s.flags;
  }

  lemma ChunkedByte(st: Settings, s: Parser, n: nat, v: string, index: nat, ch: char) returns (index': nat)
    requires n < MAX_HEADER_SIZE && v != [] && ch != CR && ch != LF && (s.lenient || IsHeaderChar(ch))
    requires ChunkedState(v) == MatchingTransferEncodingChunked ==> index == |v| - 1
    ensures Step(st, InValue(s, n, ChunkedState(v), index), ch) == Go(InValue(s, n + 1, ChunkedState(v + [ch]), index'), SILENT)
    ensures ChunkedState(v + [ch]) == MatchingTransferEncodingChunked ==> index' == |v|
    ensures OpenKind(InValue(s, n, ChunkedState(v), index).state) == Some(Value)
  {
    hide ValueNext, ChunkedState, IsHeaderChar;
    var x := ScanOf(InValue(s, n + 1, ChunkedState(v), index));
    ChunkedNext(v, x, ch);
    index' := ValueNext(x, ch).index;
  }

  lemma {:induction false} ChunkedRun(st: Settings, m: Machine, s: Parser, v: string) returns (index: nat)
    requires m.out.Going? && m.s == s && s.state.HeaderValueDiscardWs? && s.hs.TransferEncoding?
    requires v != [] && v[0] != ' ' && v[0] != '\t' && IsValue(v, s.lenient) && s.nread + |v| <= MAX_HEADER_SIZE
    ensures Run(st, m, v) == Machine(InValue(s, s.nread + |v|, ChunkedState(v), index), Push(m.log, Data(Value, v, false)),
                                     m.n + |v|, Going)
    ensures ChunkedState(v) == MatchingTransferEncodingChunked ==> index == |v| - 1
    decreases |v|
  {
    hide Step, Run, Push, ChunkedState, InValue, IsHeaderChar;
    var init, ch := v[..|v| - 1], v[|v| - 1];
    assert v == init + [ch];
    if init == [] {
      assert v == [ch];
      ChunkedStartByte(st, s, ch);
      RunNil(st, m);
      index := 0;
      RunMark(st, m, [], ch, InValue(s, s.nread + 1, ChunkedState([ch]), 0), Value);
    } else {
      var before := ChunkedRun(st, m, s, init);
      var n := s.nread + |init|;
      index := ChunkedByte(st, s, n, init, before, ch);
      RunData(st, m, init, ch, InValue(s, n + 1, ChunkedState(v), index), Value, m.log, init);
    }
  }

  /** Behind the line of a header: the next byte tells whether the value goes on. */
  function AtLineEnd(s: Parser, n: nat, hs: HState, index: nat): Parser {
    s.(state := HeaderValueLws, nread := n, hs := hs, index := index)
  }

  function AtLineFeed(s: Parser, n: nat, hs: HState, index: nat): Parser {
    s.(state := HeaderAlmostDone, nread := n, hs := hs, index := index)
  }

  lemma ValueCr(st: Settings, s: Parser, n: nat, hs: HState, index: nat)
    requires n < MAX_HEADER_SIZE
    ensures OpenKind(InValue(s, n, hs, index).state) == Some(Value)
    ensures Step(st, InValue(s, n, hs, index), CR) == Closing(InValue(s, n + 1, hs, index), Value, HeaderAlmostDone)
    ensures InValue(s, n + 1, hs, index).(state := HeaderAlmostDone) == AtLineFeed(s, n + 1, hs, index)
  {
  }

  lemma ValueLf(st: Settings, s: Parser, n: nat, hs: HState, index: nat)
    requires n < MAX_HEADER_SIZE
    ensures OpenKind(AtLineFeed(s, n, hs, index).state) == None
    ensures Step(st, AtLineFeed(s, n, hs, index), LF) == Go(AtLineEnd(s, n + 1, hs, index), SILENT)
  {
  }

  /** The end of a header line reports the value whole. */
  lemma LineEnds(st: Settings, m: Machine, a: string, s: Parser, n: nat, hs: HState, index: nat, log: seq<Event>, v: string)
    requires Run(st, m, a).out.Going? && Run(st, m, a).s == InValue(s, n, hs, index) && n + 1 < MAX_HEADER_SIZE
    requires Run(st, m, a).log == Push(log, Data(Value, v, false))
    ensures Run(st, m, a + [CR, LF])
         == Machine(AtLineEnd(s, n + 2, hs, index), Push(log, Data(Value, v, true)), Run(st, m, a).n + 2, Going)
  {
    hide Step, Run, Push, InValue, AtLineFeed, AtLineEnd;
    ValueCr(st, s, n, hs, index);
    RunClose(st, m, a, CR, InValue(s, n + 1, hs, index), Value, HeaderAlmostDone, log, v);
    ValueLf(st, s, n + 1, hs, index);
    RunSilent(st, m, a + [CR], LF, AtLineEnd(s, n + 2, hs, index));
    assert a + [CR] + [LF] == a + [CR, LF];
  }

  /** An unfolded transfer-encoding value turns chunked coding on exactly when it is "chunked" without regard to
      case, followed only by spaces. The flag is set by the byte behind the line, unless that is a blank. */
  lemma ChunkedValueExact(st: Settings, m: Machine, s: Parser, v: string, next: char) returns (index: nat)
    requires m.out.Going? && m.s == s && s.state.HeaderValueDiscardWs? && s.hs.TransferEncoding?
    requires v != [] && v[0] != ' ' && v[0] != '\t' && IsValue(v, s.lenient) && s.nread + |v| + 2 < MAX_HEADER_SIZE
    requires next != ' ' && next != '\t'
    ensures var t := AtLineEnd(s, s.nread + |v| + 2, ChunkedState(v), index);
            && Run(st, m, v + [CR, LF]) == Machine(t, Push(m.log, Data(Value, v, true)), m.n + |v| + 2, Going)
            && t.flags == s.flags
            && Step(st, t, next)
               == FieldStartByte(st, t.(nread := t.nread + 1, state := HeaderFieldStart,
                                        flags := t.flags.(chunked := t.flags.chunked || IsChunkedValue(v))), next)
  {
    hide *;
    index := ChunkedRun(st, m, s, v);
    var n, hs := s.nread + |v|, ChunkedState(v);
    LineEnds(st, m, v, s, n, hs, index, m.log, v);
    ChunkedLine(st, s, n + 2, index, v, next);
  }

  lemma ChunkedLine(st: Settings, s: Parser, n: nat, index: nat, v: string, next: char)
    requires n < MAX_HEADER_SIZE && next != ' ' && next != '\t'
    ensures var t := AtLineEnd(s, n, ChunkedState(v), index);
            && t.flags == s.flags
            && Step(st, t, next)
               == FieldStartByte(st, t.(nread := t.nread + 1, state := HeaderFieldStart,
                                        flags := t.flags.(chunked := t.flags.chunked || IsChunkedValue(v))), next)
  {
    hide FieldStartByte, LowerAll, Pre;
  }

  // ---- words that are header names ----

  predicate TokenWord(w: string) {
    w != [] && forall i :: 0 <= i < |w| ==> Token(w[i]) == w[i] && w[i] != '\0'
  }

  lemma WordTokens(w: string)
    requires TokenWord(w)
    ensures Tokens(w) == w && IsName(w)
  {
  }

  lemma WordsOk()
    ensures TokenWord(CONNECTION) && TokenWord(CONTENT_LENGTH) && TokenWord(TRANSFER_ENCODING)
  {
    hide *;
    LettersOk(CONNECTION);
    LettersOk(CONTENT_LENGTH);
    LettersOk(TRANSFER_ENCODING);
    KeywordsAreLetters();
  }

  lemma KeywordsAreLetters()
    ensures AreLetters(CONNECTION) && AreLetters(CONTENT_LENGTH) && AreLetters(TRANSFER_ENCODING)
    ensures AreLetters(PROXY_CONNECTION) && AreLetters(UPGRADE)
  {
  }

  /** Small letters and hyphens. */
  predicate AreLetters(w: string) {
    w != [] && forall i :: 0 <= i < |w| ==> 'a' <= w[i] <= 'z' || w[i] == '-'
  }

  lemma LettersOk(w: string)
    ensures AreLetters(w) ==> TokenWord(w)
  {
    forall i | 0 <= i < |w| && ('a' <= w[i] <= 'z' || w[i] == '-') ensures Token(w[i]) == w[i] && w[i] != '\0' {
    }
  }

  lemma OtherWordsOk()
    ensures TokenWord(PROXY_CONNECTION) && TokenWord(UPGRADE) && TokenWord(CONNECTION)
  {
    hide *;
    LettersOk(PROXY_CONNECTION);
    LettersOk(UPGRADE);
    LettersOk(CONNECTION);
    KeywordsAreLetters();
  }
}
