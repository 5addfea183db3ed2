/** URLs with a schema and a server, and the server alone that CONNECT takes: printed from their components, they are
    split into the same components. */
module HttpAuthority {
  import opened Wrappers
  import opened HttpChars
  import opened HttpTypes
  import opened HttpStep
  import opened HttpLength
  import opened HttpInvariant
  import opened HttpUrl
  import opened HttpRequestLine

  // ---- the components and their characters ----

  /** A server: user information if `at`; a name, or an address in brackets with a zone or none; a port or none. */
  datatype Server = Server(at: bool, user: string, v6: bool, host: string, zone: string, port: string)

  /** The rest of a URL: each part may be missing. */
  datatype Tail = Tail(path: string, query: string, fragment: string)

  predicate IsLetter(c: char) {
    c in UPPER || c in SMALL
  }

  predicate UserOk(user: string) {
    forall c <- user :: IsLetter(c) || c in DIGITS || c in "-_.!~*'()%;:&=+$,"
  }

  predicate NameOk(host: string) {
    host != [] && forall c <- host :: IsLetter(c) || c in DIGITS || c in ".-"
  }

  predicate AddressOk(host: string) {
    host != [] && forall c <- host :: c in "abcdefABCDEF" || c in DIGITS || c in ":."
  }

  predicate ZoneOk(zone: string) {
    forall c <- zone :: IsLetter(c) || c in DIGITS || c in "%.-_~"
  }

  predicate ServerOk(s: Server) {
    && (if s.at then UserOk(s.user) else s.user == [])
    && (if s.v6 then AddressOk(s.host) && ZoneOk(s.zone) else NameOk(s.host) && s.zone == [])
    && AllNum(s.port)
  }

  predicate SchemaOk(schema: string) {
    schema != [] && forall c <- schema :: IsLetter(c)
  }

  /** Visible ASCII that ends neither a path nor a query. */
  predicate Plain(c: char) {
    '!' <= c <= '~' && c != '?' && c != '#'
  }

  /** A path from its '/' on, a query, a fragment; a fragment needs a path or a query in front of it, and a '#' in front
      of it would be dropped. */
  predicate TailOk(t: Tail) {
    && (t.path != [] ==> t.path[0] == '/') && (forall c <- t.path :: Plain(c))
    && (forall c <- t.query :: Plain(c) || c == '?')
    && (forall c <- t.fragment :: Plain(c) || c == '?' || c == '#')
    && (t.fragment != [] ==> t.fragment[0] != '#' && (t.path != [] || t.query != []))
  }

  /** The host as it comes back: with its zone, without its brackets. */
  function HostText(s: Server): string {
    s.host + if s.zone == [] then [] else ['%'] + s.zone
  }

  function ServerText(s: Server): string {
    (if s.at then s.user + ['@'] else []) + ((if s.v6 then ['['] else []) + (HostText(s) + ((if s.v6 then [']'] else [])
    + (if s.port == [] then [] else [':'] + s.port))))
  }

  function TailText(t: Tail): string {
    t.path + ((if t.query == [] then [] else ['?'] + t.query) + (if t.fragment == [] then [] else ['#'] + t.fragment))
  }

  function UrlText(schema: string, s: Server, t: Tail): string {
    (schema + [':', '/', '/']) + (ServerText(s) + TailText(t))
  }

  // ---- what the characters do ----

  lemma SchemaChars(c: char)
    requires IsLetter(c)
    ensures UrlChar(ReqSpacesBeforeUrl, c) == ReqSchema && UrlChar(ReqSchema, c) == ReqSchema
  {
    LettersAre(c);
    hide UPPER, SMALL, DIGITS;
  }

  lemma SlashChars()
    ensures UrlChar(ReqSchema, ':') == ReqSchemaSlash && UrlChar(ReqSchemaSlash, '/') == ReqSchemaSlashSlash
    ensures UrlChar(ReqSchemaSlashSlash, '/') == ReqServerStart
    ensures PartOf(ReqSchemaSlash) == None && PartOf(ReqSchemaSlashSlash) == None && PartOf(ReqServerStart) == None
    ensures PartOf(ReqSchema) == Some(Schema) && ReqSchema != ReqServerWithAt && PartOf(ReqServer) == PartOf(ReqServerWithAt) == Some(Host)
  {
  }

  /** A byte a server can be made of, but '@'. */
  predicate ServerByte(c: char) {
    IsUserInfoChar(c) || c == '[' || c == ']'
  }

  predicate InServer(s: State) {
    s.ReqServerStart? || s.ReqServer? || s.ReqServerWithAt?
  }

  lemma ServerChars(s: State, c: char)
    requires InServer(s)
    ensures ServerByte(c) ==> UrlChar(s, c) == ReqServer
    ensures c == '@' && !s.ReqServerWithAt? ==> UrlChar(s, c) == ReqServerWithAt
  {
    ServerCharIs(s, c);
    hide UrlChar;
  }

  lemma ServerCharIs(s: State, c: char)
    requires InServer(s)
    ensures UrlChar(s, c) == if c in " \r\n\t\U{000C}" || (s.ReqServerWithAt? && c == '@') then Dead else ServerChar(c)
  {
    hide ServerChar;
  }

  lemma TailDelimiters()
    ensures UrlChar(ReqServer, '/') == ReqPath && UrlChar(ReqServer, '?') == ReqQueryStringStart
    ensures UrlChar(ReqPath, '?') == ReqQueryStringStart
    ensures UrlChar(ReqPath, '#') == ReqFragmentStart && UrlChar(ReqQueryString, '#') == ReqFragmentStart
  {
  }

  lemma PathChar(c: char)
    requires Plain(c)
    ensures UrlChar(ReqPath, c) == ReqPath
  {
  }

  lemma QueryChars(c: char)
    requires Plain(c) || c == '?'
    ensures UrlChar(ReqQueryStringStart, c) == UrlChar(ReqQueryString, c) == ReqQueryString
  {
  }

  lemma FragmentChars(c: char)
    requires Plain(c) || c == '?' || c == '#'
    ensures UrlChar(ReqFragment, c) == ReqFragment && (c != '#' ==> UrlChar(ReqFragmentStart, c) == ReqFragment)
  {
  }

  lemma UserChars(c: char)
    requires IsLetter(c) || c in DIGITS || c in "-_.!~*'()%;:&=+$,"
    ensures ServerByte(c) && IsUserInfoChar(c) && c != '@'
  {
    LettersAre(c);
    hide UPPER, SMALL, DIGITS;
  }

  lemma NameChars(c: char)
    requires IsLetter(c) || c in DIGITS || c in ".-"
    ensures ServerByte(c) && HostChar(HostStart, c) == HostChar(InHost, c) == InHost
  {
    LettersAre(c);
    hide UPPER, SMALL, DIGITS;
  }

  lemma AddressChars(c: char)
    requires c in "abcdefABCDEF" || c in DIGITS || c in ":."
    ensures ServerByte(c) && HostChar(V6Start, c) == HostChar(InV6, c) == InV6
  {
    LettersAre(c);
    hide UPPER, SMALL, DIGITS;
  }

  lemma ZoneChars(c: char)
    requires IsLetter(c) || c in DIGITS || c in "%.-_~"
    ensures ServerByte(c) && HostChar(ZoneStart, c) == HostChar(InZone, c) == InZone
  {
    LettersAre(c);
    hide UPPER, SMALL, DIGITS;
  }

  lemma PortChars(c: char)
    requires IsNum(c)
    ensures ServerByte(c) && HostChar(PortStart, c) == HostChar(InPort, c) == InPort
  {
  }

  lemma Brackets()
    ensures ServerByte('[') && ServerByte(']') && ServerByte(':') && ServerByte('%')
    ensures HostChar(HostStart, '[') == V6Start && HostChar(InV6, ']') == HostChar(InZone, ']') == V6End
    ensures HostChar(InV6, '%') == ZoneStart
    ensures HostChar(InHost, ':') == HostChar(V6End, ':') == PortStart
    ensures HostChar(UserInfoStart, '@') == HostChar(InUserInfo, '@') == HostStart
  {
  }

  // ---- the first pass ----

  /** The state behind a server byte. */
  function BehindServerByte(c: char): State {
    if c == '@' then ReqServerWithAt else ReqServer
  }

  /** Server bytes, with no '@' directly behind another. */
  predicate ServerRunOk(run: string) {
    && (forall i :: 0 <= i < |run| ==> ServerByte(run[i]) || run[i] == '@')
    && (forall i :: 0 < i < |run| ==> !(run[i - 1] == '@' && run[i] == '@'))
  }

  lemma {:induction false} ServerPass(url: string, connect: bool, a: nat, n: nat, u: Pass)
    requires a < n <= |url| <= 0xFFFF && PassOver(url, connect, a) == u && ServerRunOk(url[a..n])
    requires u.s.ReqServerStart? && Host !in u.fields && u.last != Some(Host) && !u.at
    ensures PassOver(url, connect, n)
         == Pass(BehindServerByte(url[n - 1]), u.fields[Host := Span(a, n - a)], Some(Host), '@' in url[a..n])
    decreases n
  {
    hide *;
    RunSplits(url, a, n);
    PassNext(url, connect, n - 1);
    if n == a + 1 {
      StartsServer(u.s);
      ServerNext(u, url[a], a, a);
    } else {
      ServerPass(url, connect, a, n - 1, u);
      var v := PassOver(url, connect, n - 1);
      AfterServerByte(url[n - 2]);
      ServerNext(v, url[n - 1], a, n - 1);
      assert u.fields[Host := Span(a, n - 1 - a)][Host := Span(a, n - a)] == u.fields[Host := Span(a, n - a)];
    }
  }

  lemma StartsServer(s: State)
    requires s.ReqServerStart?
    ensures InServer(s)
  {
  }

  lemma PassNext(url: string, connect: bool, n: nat)
    requires n < |url|
    ensures PassOver(url, connect, n + 1) == PassByte(PassOver(url, connect, n), url[n], n)
  {
    hide PassByte;
  }

  lemma AfterServerByte(c: char)
    ensures InServer(BehindServerByte(c)) && BehindServerByte(c) != ReqServerStart
    ensures BehindServerByte(c) == (if c == '@' then ReqServerWithAt else ReqServer)
  {
  }

  /** The last byte of a run and what is before it. */
  lemma RunSplits(url: string, a: nat, n: nat)
    requires a < n <= |url| && ServerRunOk(url[a..n])
    ensures ServerByte(url[n - 1]) || url[n - 1] == '@'
    ensures n == a + 1 ==> ('@' in url[a..n] <==> url[a] == '@')
    ensures n > a + 1 ==> ServerRunOk(url[a..n - 1]) && !(url[n - 2] == '@' && url[n - 1] == '@')
    ensures n > a + 1 ==> ('@' in url[a..n] <==> '@' in url[a..n - 1] || url[n - 1] == '@')
  {
    hide ServerByte;
    var run := url[a..n];
    assert run[n - 1 - a] == url[n - 1];
    if n > a + 1 {
      var less := url[a..n - 1];
      assert run == less + [url[n - 1]];
      assert run[n - 2 - a] == url[n - 2];
      assert forall i :: 0 <= i < |less| ==> less[i] == run[i];
    }
  }

  /** One byte of a server that began at `a`. */
  lemma ServerNext(u: Pass, c: char, a: nat, p: nat)
    requires InServer(u.s) && (ServerByte(c) || c == '@') && !(u.s.ReqServerWithAt? && c == '@') && a <= p < 0xFFFF
    requires if p == a then u.last != Some(Host) && Host !in u.fields
             else u.last == Some(Host) && Host in u.fields && u.fields[Host] == Span(a, p - a)
    ensures PassByte(u, c, p)
         == Pass(BehindServerByte(c), u.fields[Host := Span(a, p + 1 - a)], Some(Host), u.at || c == '@')
  {
    hide *;
    ServerChars(u.s, c);
    ServerByteIsNoAt(c);
    AfterServerByte(c);
    SlashChars();
    PassByteParts(u, c, p);
    HostGrows(u.fields, a, p);
  }

  lemma HostGrows(fields: Spans, a: nat, p: nat)
    requires a <= p < 0xFFFF
    ensures Grow(fields, Host, a, true) == fields[Host := Span(a, 1)]
    ensures a < p && Host in fields && fields[Host] == Span(a, p - a) ==>
              Grow(fields, Host, p, false) == fields[Host := Span(a, p + 1 - a)]
  {
    Narrow(a);
    Narrow(p + 1 - a);
  }

  lemma ServerByteIsNoAt(c: char)
    ensures ServerByte(c) ==> c != '@'
  {
  }

  // ---- texts in a buffer ----

  /** The text stands in the buffer at `p`. */
  predicate Stands(buf: string, p: nat, text: string) {
    p + |text| <= |buf| && buf[p..p + |text|] == text
  }

  lemma StandsSplit(buf: string, p: nat, a: string, b: string)
    requires Stands(buf, p, a + b)
    ensures Stands(buf, p, a) && Stands(buf, p + |a|, b)
  {
    var t := a + b;
    assert t[..|a|] == a && t[|a|..] == b;
    assert buf[p..p + |t|][..|a|] == buf[p..p + |a|] && buf[p..p + |t|][|a|..] == buf[p + |a|..p + |t|];
  }

  lemma StandsLast(buf: string, p: nat, text: string)
    requires Stands(buf, p, text) && text != []
    ensures Stands(buf, p, text[..|text| - 1]) && p + |text| <= |buf| && buf[p + |text| - 1] == text[|text| - 1]
    ensures text == text[..|text| - 1] + [text[|text| - 1]]
  {
    assert text == text[..|text| - 1] + [text[|text| - 1]];
    StandsSplit(buf, p, text[..|text| - 1], [text[|text| - 1]]);
  }

  lemma StandsOne(buf: string, p: nat, c: char)
    requires Stands(buf, p, [c])
    ensures p < |buf| && buf[p] == c
  {
  }

  lemma StandsBytes(buf: string, p: nat, text: string)
    requires Stands(buf, p, text)
    ensures p + |text| <= |buf| && forall i :: p <= i < p + |text| ==> buf[i] in text
    ensures text != [] ==> buf[p] == text[0]
  {
    assert forall i :: p <= i < p + |text| ==> buf[i] == buf[p..p + |text|][i - p];
  }

  // ---- the second pass ----

  /** All bytes keep the state. */
  predicate Stay(text: string, s: HostState) {
    forall i :: 0 <= i < |text| ==> HostChar(s, text[i]) == s
  }

  lemma StayInit(text: string, s: HostState)
    requires Stay(text, s) && text != []
    ensures Stay(text[..|text| - 1], s) && HostChar(s, text[|text| - 1]) == s
  {
    hide HostChar;
  }

  lemma HostNext(buf: string, fields: Spans, at: bool, n: nat)
    requires Host in fields && fields[Host].off + n < |buf|
    ensures HostOver(buf, fields, at, n + 1) == HostByte(HostOver(buf, fields, at, n), buf[fields[Host].off + n], fields[Host].off + n)
  {
    hide HostByte;
  }

  lemma GrowsHost(h: HostPass, c: char, p: nat, s: HostState)
    requires Host in h.fields && HostChar(h.s, c) == s && p < 0xFFFF && h.fields[Host].len < 0xFFFF
    ensures s.InHost? || s.InV6? ==>
              HostByte(h, c, p)
              == HostPass(s, h.fields[Host := Span(if h.s != s then p else h.fields[Host].off, h.fields[Host].len + 1)])
    ensures s.ZoneStart? || s.InZone? ==>
              HostByte(h, c, p) == HostPass(s, h.fields[Host := Span(h.fields[Host].off, h.fields[Host].len + 1)])
    ensures s.InPort? ==> HostByte(h, c, p) == HostPass(s, Grow(h.fields, Port, p, h.s != s))
    ensures s.InUserInfo? ==> HostByte(h, c, p) == HostPass(s, Grow(h.fields, UserInfo, p, h.s != s))
    ensures s.HostStart? || s.V6Start? || s.V6End? || s.PortStart? ==> HostByte(h, c, p) == HostPass(s, h.fields)
  {
    hide HostChar, Grow;
    Narrow(p);
    Narrow(h.fields[Host].len + 1);
  }

  /** A run that leads into state `s` and keeps it: a name or an address. */
  lemma {:induction false} HostRun(buf: string, fields: Spans, at: bool, x: nat, text: string, h: HostPass, s: HostState)
    requires Host in fields && |buf| <= 0xFFFF && Stands(buf, fields[Host].off + x, text) && text != []
    requires fields[Host].off + x <= |buf| && HostOver(buf, fields, at, x) == h
    requires h.s != s && Host in h.fields && h.fields[Host].len == 0 && (s.InHost? || s.InV6?)
    requires HostChar(h.s, text[0]) == s && Stay(text, s)
    ensures fields[Host].off + x + |text| <= |buf|
    ensures HostOver(buf, fields, at, x + |text|) == HostPass(s, h.fields[Host := Span(fields[Host].off + x, |text|)])
    decreases |text|
  {
    hide HostChar, HostOver, HostByte, Stands, Stay;
    var off, n := fields[Host].off, |text| - 1;
    StandsLast(buf, off + x, text);
    StayInit(text, s);
    HostNext(buf, fields, at, x + n);
    if n == 0 {
      GrowsHost(h, text[0], off + x, s);
    } else {
      HostRun(buf, fields, at, x, text[..n], h, s);
      GrowsHost(HostOver(buf, fields, at, x + n), text[n], off + x + n, s);
      assert h.fields[Host := Span(off + x, n)][Host := Span(off + x, n + 1)] == h.fields[Host := Span(off + x, n + 1)];
    }
  }

  /** The zone belongs to the host. */
  lemma {:induction false} ZoneRun(buf: string, fields: Spans, at: bool, x: nat, text: string, h: HostPass, p: nat, k: nat)
    requires Host in fields && |buf| <= 0xFFFF && Stands(buf, fields[Host].off + x, text) && text != [] && Stay(text, InZone)
    requires fields[Host].off + x <= |buf| && HostOver(buf, fields, at, x) == h
    requires h.s.ZoneStart? && Host in h.fields && h.fields[Host] == Span(p, k) && k + |text| <= 0xFFFF
    requires HostChar(ZoneStart, text[0]) == InZone
    ensures fields[Host].off + x + |text| <= |buf|
    ensures HostOver(buf, fields, at, x + |text|) == HostPass(InZone, h.fields[Host := Span(p, k + |text|)])
    decreases |text|
  {
    hide HostChar, HostOver, HostByte, Stands, Stay;
    var off, n := fields[Host].off, |text| - 1;
    StandsLast(buf, off + x, text);
    StayInit(text, InZone);
    HostNext(buf, fields, at, x + n);
    if n == 0 {
      GrowsHost(h, text[0], off + x, InZone);
    } else {
      ZoneRun(buf, fields, at, x, text[..n], h, p, k);
      GrowsHost(HostOver(buf, fields, at, x + n), text[n], off + x + n, InZone);
      assert h.fields[Host := Span(p, k + n)][Host := Span(p, k + n + 1)] == h.fields[Host := Span(p, k + n + 1)];
    }
  }

  /** One byte more of the user information or the port. */
  lemma OtherNext(h: HostPass, c: char, p: nat, s: HostState, f: Part)
    requires Host in h.fields && HostChar(h.s, c) == s && p < 0xFFFF && h.fields[Host].len < 0xFFFF
    requires (s == InUserInfo && f == UserInfo) || (s == InPort && f == Port)
    ensures HostByte(h, c, p) == HostPass(s, Grow(h.fields, f, p, h.s != s))
  {
    hide HostChar, HostByte, Grow;
    GrowsHost(h, c, p, s);
  }

  /** The user information, or the port. */
  lemma {:induction false} OtherRun(buf: string, fields: Spans, at: bool, x: nat, text: string, h: HostPass, s: HostState, f: Part)
    requires Host in fields && |buf| <= 0xFFFF && Stands(buf, fields[Host].off + x, text) && text != [] && Stay(text, s)
    requires fields[Host].off + x <= |buf| && HostOver(buf, fields, at, x) == h
    requires h.s != s && f !in h.fields && Host in h.fields && h.fields[Host].len < 0xFFFF
    requires (s == InUserInfo && f == UserInfo) || (s == InPort && f == Port)
    requires HostChar(h.s, text[0]) == s
    ensures fields[Host].off + x + |text| <= |buf|
    ensures HostOver(buf, fields, at, x + |text|) == HostPass(s, h.fields[f := Span(fields[Host].off + x, |text|)])
    decreases |text|
  {
    hide *;
    var off, n: nat := fields[Host].off, |text| - 1;
    var p: nat := off + x;
    var init, c := text[..n], text[n];
    StandsLast(buf, p, text);
    StayInit(text, s);
    HostNext(buf, fields, at, x + n);
    Grows(h.fields, f, p, p + n);
    if n == 0 {
      OtherNext(h, c, p, s, f);
    } else {
      OtherRun(buf, fields, at, x, init, h, s, f);
      var g := HostPass(s, h.fields[f := Span(p, n)]);
      assert HostOver(buf, fields, at, x + n) == g;
      assert g.fields[Host] == h.fields[Host];
      OtherNext(g, c, p + n, s, f);
      assert p + n + 1 - p == |text|;
    }
  }

  /** A delimiter belongs to no field. */
  lemma DelimiterByte(buf: string, fields: Spans, at: bool, x: nat, c: char, h: HostPass, s: HostState)
    requires Host in fields && |buf| <= 0xFFFF && Stands(buf, fields[Host].off + x, [c])
    requires fields[Host].off + x <= |buf| && HostOver(buf, fields, at, x) == h && Host in h.fields && h.fields[Host].len < 0xFFFF
    requires HostChar(h.s, c) == s && (s.HostStart? || s.V6Start? || s.V6End? || s.PortStart?)
    ensures fields[Host].off + x + 1 <= |buf| && HostOver(buf, fields, at, x + 1) == HostPass(s, h.fields)
  {
    hide HostChar, HostOver, HostByte, Stands;
    StandsOne(buf, fields[Host].off + x, c);
    HostNext(buf, fields, at, x);
    GrowsHost(h, c, fields[Host].off + x, s);
  }

  // ---- a server, part by part ----

  function UserText(s: Server): string {
    if s.at then s.user + ['@'] else []
  }

  function OpenText(s: Server): string {
    if s.v6 then ['['] else []
  }

  function CloseText(s: Server): string {
    if s.v6 then [']'] else []
  }

  function PortText(s: Server): string {
    if s.port == [] then [] else [':'] + s.port
  }

  lemma ServerParts(s: Server)
    ensures ServerText(s) == UserText(s) + ((OpenText(s) + (HostText(s) + CloseText(s))) + PortText(s))
  {
    hide HostText;
    assert OpenText(s) + (HostText(s) + (CloseText(s) + PortText(s))) == (OpenText(s) + (HostText(s) + CloseText(s))) + PortText(s);
  }

  /** Where the host begins, and where the port's ':' would stand, from the first byte of the server. */
  function HostFrom(s: Server): nat {
    |UserText(s)| + |OpenText(s)|
  }

  function HostEnd(s: Server): nat {
    HostFrom(s) + |HostText(s)| + |CloseText(s)|
  }

  function AfterUser(fields: Spans, s: Server, off: nat): Spans {
    var f0 := fields[Host := Span(off, 0)];
    if s.user == [] then f0 else f0[UserInfo := Span(off, |s.user|)]
  }

  function AfterHost(fields: Spans, s: Server, off: nat): Spans {
    AfterUser(fields, s, off)[Host := Span(off + HostFrom(s), |HostText(s)|)]
  }

  /** The fields of a server that starts at `off`, in place of its run: its components. */
  function ServerSpans(fields: Spans, s: Server, off: nat): Spans {
    var m := AfterHost(fields, s, off);
    if s.port == [] then m else m[Port := Span(off + HostEnd(s) + 1, |s.port|)]
  }

  lemma UserStays(user: string)
    requires UserOk(user)
    ensures Stay(user, InUserInfo) && (user != [] ==> HostChar(UserInfoStart, user[0]) == InUserInfo)
    ensures HostChar(UserInfoStart, '@') == HostChar(InUserInfo, '@') == HostStart
  {
    hide IsUserInfoChar, IsLetter, DIGITS;
    Brackets();
    forall i | 0 <= i < |user| ensures HostChar(InUserInfo, user[i]) == HostChar(UserInfoStart, user[i]) == InUserInfo {
      assert user[i] in user;
      UserChars(user[i]);
    }
  }

  lemma NameStays(host: string)
    requires NameOk(host)
    ensures host != [] && Stay(host, InHost) && HostChar(HostStart, host[0]) == InHost
  {
    hide HostChar, IsLetter, DIGITS;
    forall i | 0 <= i < |host| ensures HostChar(InHost, host[i]) == HostChar(HostStart, host[i]) == InHost {
      assert host[i] in host;
      NameChars(host[i]);
    }
  }

  lemma AddressStays(host: string)
    requires AddressOk(host)
    ensures host != [] && Stay(host, InV6) && HostChar(V6Start, host[0]) == InV6
    ensures HostChar(HostStart, '[') == V6Start && HostChar(InV6, ']') == HostChar(InZone, ']') == V6End
    ensures HostChar(InV6, '%') == ZoneStart
  {
    Brackets();
    hide HostChar, DIGITS;
    forall i | 0 <= i < |host| ensures HostChar(InV6, host[i]) == HostChar(V6Start, host[i]) == InV6 {
      assert host[i] in host;
      AddressChars(host[i]);
    }
  }

  lemma ZoneStays(zone: string)
    requires ZoneOk(zone)
    ensures Stay(zone, InZone) && (zone != [] ==> HostChar(ZoneStart, zone[0]) == InZone)
  {
    hide HostChar, IsLetter, DIGITS;
    forall i | 0 <= i < |zone| ensures HostChar(InZone, zone[i]) == HostChar(ZoneStart, zone[i]) == InZone {
      assert zone[i] in zone;
      ZoneChars(zone[i]);
    }
  }

  lemma PortStays(port: string)
    requires AllNum(port)
    ensures Stay(port, InPort) && (port != [] ==> HostChar(PortStart, port[0]) == InPort)
    ensures HostChar(InHost, ':') == HostChar(V6End, ':') == PortStart
  {
    Brackets();
    hide HostChar;
    forall i | 0 <= i < |port| ensures HostChar(InPort, port[i]) == HostChar(PortStart, port[i]) == InPort {
      PortChars(port[i]);
    }
  }

  /** The start of the pass over a server run. */
  lemma HostStarts(buf: string, fields: Spans, at: bool)
    requires Host in fields && fields[Host].off <= |buf|
    ensures HostOver(buf, fields, at, 0)
         == HostPass(if at then UserInfoStart else HostStart, fields[Host := Span(fields[Host].off, 0)])
  {
  }

  lemma UserPart(buf: string, fields: Spans, s: Server)
    requires Host in fields && UserInfo !in fields && fields[Host].off <= |buf| <= 0xFFFF
    requires Stands(buf, fields[Host].off, UserText(s)) && UserOk(s.user) && (!s.at ==> s.user == [])
    ensures fields[Host].off + |UserText(s)| <= |buf|
    ensures HostOver(buf, fields, s.at, |UserText(s)|) == HostPass(HostStart, AfterUser(fields, s, fields[Host].off))
  {
    hide HostChar, HostOver, Stands, Stay, UserOk;
    var off := fields[Host].off;
    UserStays(s.user);
    HostStarts(buf, fields, s.at);
    if s.at {
      StandsSplit(buf, off, s.user, ['@']);
      var h := HostOver(buf, fields, true, 0);
      if s.user != [] {
        OtherRun(buf, fields, true, 0, s.user, h, InUserInfo, UserInfo);
      }
      DelimiterByte(buf, fields, true, |s.user|, '@', HostOver(buf, fields, true, |s.user|), HostStart);
    }
  }

  /** A name, or an address with its brackets and its zone. */
  lemma HostPart(buf: string, fields: Spans, s: Server, x: nat, g: Spans)
    requires Host in fields && fields[Host].off + x <= |buf| <= 0xFFFF && Host in g && g[Host].len == 0
    requires Stands(buf, fields[Host].off + x, OpenText(s) + (HostText(s) + CloseText(s)))
    requires if s.v6 then AddressOk(s.host) && ZoneOk(s.zone) else NameOk(s.host) && s.zone == []
    requires HostOver(buf, fields, s.at, x) == HostPass(HostStart, g)
    ensures var y := x + |OpenText(s)| + |HostText(s)| + |CloseText(s)|;
            && fields[Host].off + y <= |buf|
            && HostOver(buf, fields, s.at, y)
               == HostPass(if s.v6 then V6End else InHost, g[Host := Span(fields[Host].off + x + |OpenText(s)|, |HostText(s)|)])
  {
    hide HostChar, HostOver, Stands, Stay, AddressOk, NameOk, ZoneOk;
    if s.v6 {
      AddressPart(buf, fields, s, x, g);
    } else {
      assert OpenText(s) + (HostText(s) + CloseText(s)) == s.host;
      NameStays(s.host);
      HostRun(buf, fields, s.at, x, s.host, HostPass(HostStart, g), InHost);
    }
  }

  lemma AddressPart(buf: string, fields: Spans, s: Server, x: nat, g: Spans)
    requires Host in fields && fields[Host].off + x <= |buf| <= 0xFFFF && Host in g && g[Host].len == 0
    requires s.v6 && AddressOk(s.host) && ZoneOk(s.zone)
    requires Stands(buf, fields[Host].off + x, OpenText(s) + (HostText(s) + CloseText(s)))
    requires HostOver(buf, fields, s.at, x) == HostPass(HostStart, g)
    ensures var y := x + 1 + |HostText(s)| + 1;
            && fields[Host].off + y <= |buf|
            && HostOver(buf, fields, s.at, y) == HostPass(V6End, g[Host := Span(fields[Host].off + x + 1, |HostText(s)|)])
  {
    hide HostChar, HostOver, Stands, Stay, AddressOk, ZoneOk, HostText;
    var off := fields[Host].off;
    AddressStays(s.host);
    StandsSplit(buf, off + x, ['['], HostText(s) + [']']);
    StandsSplit(buf, off + x + 1, HostText(s), [']']);
    DelimiterByte(buf, fields, s.at, x, '[', HostPass(HostStart, g), V6Start);
    AddressInside(buf, fields, s, x + 1, g);
    StandsFits(buf, off + x + 1, HostText(s));
    var n := x + 1 + |HostText(s)|;
    StandsFits(buf, off + n, [']']);
    DelimiterByte(buf, fields, s.at, n, ']', HostOver(buf, fields, s.at, n), V6End);
  }

  /** Between the brackets. */
  lemma AddressInside(buf: string, fields: Spans, s: Server, x: nat, g: Spans)
    requires Host in fields && fields[Host].off + x <= |buf| <= 0xFFFF && Host in g && g[Host].len == 0
    requires AddressOk(s.host) && ZoneOk(s.zone) && Stands(buf, fields[Host].off + x, HostText(s))
    requires HostOver(buf, fields, s.at, x) == HostPass(V6Start, g)
    ensures fields[Host].off + x + |HostText(s)| <= |buf|
    ensures HostOver(buf, fields, s.at, x + |HostText(s)|)
         == HostPass(if s.zone == [] then InV6 else InZone, g[Host := Span(fields[Host].off + x, |HostText(s)|)])
  {
    hide HostChar, HostOver, Stands, Stay, AddressOk, ZoneOk;
    var off, k := fields[Host].off, |s.host|;
    AddressStays(s.host);
    ZoneStays(s.zone);
    if s.zone == [] {
      assert HostText(s) == s.host;
      HostRun(buf, fields, s.at, x, s.host, HostPass(V6Start, g), InV6);
    } else {
      StandsSplit(buf, off + x, s.host, ['%'] + s.zone);
      StandsSplit(buf, off + x + k, ['%'], s.zone);
      HostRun(buf, fields, s.at, x, s.host, HostPass(V6Start, g), InV6);
      ZoneFirst(buf, fields, s.at, x + k, HostOver(buf, fields, s.at, x + k));
      ZoneRun(buf, fields, s.at, x + k + 1, s.zone, HostOver(buf, fields, s.at, x + k + 1), off + x, k + 1);
      ZoneSpans(g, off + x, k, |s.zone|);
    }
  }

  lemma ZoneSpans(g: Spans, p: nat, k: nat, n: nat)
    ensures g[Host := Span(p, k)][Host := Span(p, k + 1)][Host := Span(p, k + 1 + n)] == g[Host := Span(p, k + 1 + n)]
  {
  }

  lemma ZoneFirst(buf: string, fields: Spans, at: bool, x: nat, h: HostPass)
    requires Host in fields && |buf| <= 0xFFFF && Stands(buf, fields[Host].off + x, ['%']) && fields[Host].off + x <= |buf|
    requires HostOver(buf, fields, at, x) == h && h.s.InV6? && Host in h.fields && h.fields[Host].len < 0xFFFF
    requires HostChar(InV6, '%') == ZoneStart
    ensures fields[Host].off + x + 1 <= |buf|
    ensures HostOver(buf, fields, at, x + 1)
         == HostPass(ZoneStart, h.fields[Host := Span(h.fields[Host].off, h.fields[Host].len + 1)])
  {
    hide HostChar, HostOver, HostByte, Stands;
    StandsOne(buf, fields[Host].off + x, '%');
    HostNext(buf, fields, at, x);
    GrowsHost(h, '%', fields[Host].off + x, ZoneStart);
  }

  /** The port, if there is one. */
  lemma PortPart(buf: string, fields: Spans, s: Server, x: nat, h: HostPass)
    requires Host in fields && fields[Host].off + x <= |buf| <= 0xFFFF && Stands(buf, fields[Host].off + x, PortText(s))
    requires HostOver(buf, fields, s.at, x) == h && Host in h.fields && Port !in h.fields
    requires s.port != [] ==> h.fields[Host].len < 0xFFFF
    requires (h.s.InHost? || h.s.V6End?) && AllNum(s.port)
    ensures var y := x + |PortText(s)|;
            && fields[Host].off + y <= |buf|
            && HostOver(buf, fields, s.at, y)
               == if s.port == [] then h
                  else HostPass(InPort, h.fields[Port := Span(fields[Host].off + x + 1, |s.port|)])
  {
    hide HostChar, HostOver, Stands, Stay, AllNum;
    if s.port != [] {
      PortStays(s.port);
      StandsSplit(buf, fields[Host].off + x, [':'], s.port);
      DelimiterByte(buf, fields, s.at, x, ':', h, PortStart);
      OtherRun(buf, fields, s.at, x + 1, s.port, HostPass(PortStart, h.fields), InPort, Port);
    }
  }

  /** The whole server: the fields are its components. */
  lemma ServerRead(buf: string, fields: Spans, s: Server)
    requires ServerOk(s) && Host in fields && UserInfo !in fields && Port !in fields && |buf| <= 0xFFFF
    requires Stands(buf, fields[Host].off, ServerText(s))
    ensures fields[Host].off + |ServerText(s)| <= |buf|
    ensures HostOver(buf, fields, s.at, |ServerText(s)|) == HostPass(LastState(s), ServerSpans(fields, s, fields[Host].off))
  {
    hide *;
    var off := fields[Host].off;
    ServerParts(s);
    ServerOkParts(s);
    var a, b, c := UserText(s), OpenText(s) + (HostText(s) + CloseText(s)), PortText(s);
    StandsFits(buf, off, ServerText(s));
    StandsSplit(buf, off, a, b + c);
    StandsSplit(buf, off + |a|, b, c);
    StandsFits(buf, off + |a|, b);
    StandsFits(buf, off + |a| + |b|, c);
    UserPart(buf, fields, s);
    var g := AfterUser(fields, s, off);
    AfterUserIs(fields, s, off);
    HostPart(buf, fields, s, |a|, g);
    AfterHostIs(fields, s, off);
    var h := HostPass(if s.v6 then V6End else InHost, AfterHost(fields, s, off));
    assert HostOver(buf, fields, s.at, |a| + |b|) == h;
    PortTextIs(s);
    PortPart(buf, fields, s, |a| + |b|, h);
    ServerSpansIs(fields, s, off);
  }

  function LastState(s: Server): HostState {
    if s.port != [] then InPort else if s.v6 then V6End else InHost
  }

  lemma AfterUserIs(fields: Spans, s: Server, off: nat)
    requires Port !in fields
    ensures var g := AfterUser(fields, s, off); Host in g && g[Host].len == 0 && Port !in g
  {
  }

  lemma AfterHostIs(fields: Spans, s: Server, off: nat)
    requires Port !in fields
    ensures var m := AfterHost(fields, s, off);
            && m == AfterUser(fields, s, off)[Host := Span(off + |UserText(s)| + |OpenText(s)|, |HostText(s)|)]
            && Port !in m && Host in m && m[Host].len == |HostText(s)|
  {
    hide HostText, OpenText, UserText;
  }

  lemma PortTextIs(s: Server)
    ensures if s.port == [] then PortText(s) == [] else |PortText(s)| == 1 + |s.port|
  {
  }

  lemma ServerSpansIs(fields: Spans, s: Server, off: nat)
    ensures var end := off + (|UserText(s)| + |OpenText(s) + (HostText(s) + CloseText(s))|);
            LastState(s) == (if s.port != [] then InPort else if s.v6 then V6End else InHost)
            && ServerSpans(fields, s, off)
               == if s.port == [] then AfterHost(fields, s, off) else AfterHost(fields, s, off)[Port := Span(end + 1, |s.port|)]
  {
    hide HostText, OpenText, UserText, CloseText, AfterHost;
  }

  lemma ServerOkParts(s: Server)
    requires ServerOk(s)
    ensures UserOk(s.user) && (!s.at ==> s.user == []) && AllNum(s.port)
    ensures if s.v6 then AddressOk(s.host) && ZoneOk(s.zone) else NameOk(s.host) && s.zone == []
  {
    hide IsLetter, DIGITS, NameOk, AddressOk, ZoneOk, AllNum;
  }

  lemma StandsFits(buf: string, p: nat, text: string)
    requires Stands(buf, p, text)
    ensures p + |text| <= |buf|
  {
  }

  // ---- the first pass over a server and over a tail ----

  lemma UserRun(user: string)
    requires UserOk(user)
    ensures forall c <- user :: ServerByte(c) && c != '@'
  {
    hide ServerByte, IsUserInfoChar, IsLetter, DIGITS;
    forall c | c in user ensures ServerByte(c) && c != '@' {
      UserChars(c);
    }
  }

  lemma NameRun(host: string)
    requires NameOk(host)
    ensures forall c <- host :: ServerByte(c) && c != '@'
  {
    hide ServerByte, HostChar, IsLetter, DIGITS;
    forall c | c in host ensures ServerByte(c) && c != '@' {
      NameChars(c);
      UserChars(c);
    }
  }

  lemma AddressRun(host: string)
    requires AddressOk(host)
    ensures forall c <- host :: ServerByte(c) && c != '@'
  {
    hide ServerByte, HostChar, DIGITS;
    forall c | c in host ensures ServerByte(c) && c != '@' {
      AddressChars(c);
      assert c != '@' by {
        LettersAre(c);
      }
    }
  }

  lemma ZoneRunOk(zone: string)
    requires ZoneOk(zone)
    ensures forall c <- zone :: ServerByte(c) && c != '@'
  {
    hide ServerByte, HostChar, IsLetter, DIGITS;
    forall c | c in zone ensures ServerByte(c) && c != '@' {
      UserChars(c);
    }
  }

  lemma PortRunOk(port: string)
    requires AllNum(port)
    ensures forall c <- port :: ServerByte(c) && c != '@'
  {
    hide ServerByte, HostChar;
    forall c | c in port ensures ServerByte(c) && c != '@' {
      var i :| 0 <= i < |port| && port[i] == c;
      PortChars(port[i]);
    }
  }

  /** What the server text is behind its user information. */
  function BehindUser(s: Server): string {
    (OpenText(s) + (HostText(s) + CloseText(s))) + PortText(s)
  }

  lemma BehindUserBytes(s: Server)
    requires ServerOk(s)
    ensures BehindUser(s) != [] && forall c <- BehindUser(s) :: ServerByte(c) && c != '@'
  {
    hide ServerByte, UserOk, NameOk, AddressOk, ZoneOk, AllNum;
    Brackets();
    if s.v6 {
      AddressRun(s.host);
      ZoneRunOk(s.zone);
    } else {
      NameRun(s.host);
    }
    PortRunOk(s.port);
    HostNonEmpty(s);
  }

  lemma HostNonEmpty(s: Server)
    requires ServerOk(s)
    ensures s.host != []
  {
    hide UserOk, ZoneOk, AllNum, IsLetter, DIGITS;
  }

  lemma ServerRunFits(s: Server)
    requires ServerOk(s)
    ensures var run := ServerText(s); run != [] && ServerRunOk(run) && run[|run| - 1] != '@' && ('@' in run <==> s.at)
  {
    hide *;
    ServerParts(s);
    BehindUserBytes(s);
    ServerOkParts(s);
    UserRun(s.user);
    JoinRuns(s.at, s.user, BehindUser(s), UserText(s), ServerText(s)) by {
      UserTextIs(s);
      BehindUserIs(s);
    }
  }

  lemma UserTextIs(s: Server)
    ensures UserText(s) == if s.at then s.user + ['@'] else []
  {
  }

  lemma BehindUserIs(s: Server)
    ensures BehindUser(s) == (OpenText(s) + (HostText(s) + CloseText(s))) + PortText(s)
  {
  }

  lemma JoinRuns(at: bool, user: string, rest: string, front: string, run: string)
    requires forall c <- user :: ServerByte(c) && c != '@'
    requires rest != [] && forall c <- rest :: ServerByte(c) && c != '@'
    requires front == (if at then user + ['@'] else []) && run == front + rest
    ensures run != [] && ServerRunOk(run) && run[|run| - 1] != '@' && ('@' in run <==> at)
  {
    hide ServerByte;
    forall i | 0 <= i < |run| ensures (ServerByte(run[i]) || run[i] == '@') && (run[i] == '@' ==> at && i == |user|) {
      if i >= |front| {
        assert run[i] == rest[i - |front|];
      } else if i < |user| {
        assert run[i] == user[i];
      }
    }
    assert run[|run| - 1] == rest[|rest| - 1];
    if at {
      assert run[|user|] == '@';
    }
  }

  lemma SchemaPass(buf: string, schema: string)
    requires SchemaOk(schema) && |buf| <= 0xFFFF && Stands(buf, 0, schema + [':', '/', '/'])
    ensures |schema| + 3 <= |buf|
    ensures PassOver(buf, false, |schema| + 3) == Pass(ReqServerStart, map[Schema := Span(0, |schema|)], Some(Schema), false)
  {
    hide *;
    var k := |schema|;
    SchemaNonEmpty(schema);
    StandsSplit(buf, 0, schema, [':', '/', '/']);
    StandsBytes(buf, 0, schema);
    SchemaRun(buf, schema);
    SlashChars();
    PassStartIs(buf, false);
    ComponentPass(buf, false, 0, k, PassStart(false), ReqSchema, Schema);
    SlashesPass(buf, k, PassOver(buf, false, k));
  }

  lemma SchemaNonEmpty(schema: string)
    requires SchemaOk(schema)
    ensures schema != []
  {
    hide IsLetter;
  }

  lemma SchemaRun(buf: string, schema: string)
    requires SchemaOk(schema) && |schema| <= |buf| && forall i :: 0 <= i < |schema| ==> buf[i] in schema
    ensures forall i :: 0 <= i < |schema| ==> UrlChar(ReqSpacesBeforeUrl, buf[i]) == UrlChar(ReqSchema, buf[i]) == ReqSchema
  {
    hide UrlChar, IsLetter;
    forall i | 0 <= i < |schema| ensures UrlChar(ReqSpacesBeforeUrl, buf[i]) == UrlChar(ReqSchema, buf[i]) == ReqSchema {
      SchemaChars(buf[i]);
    }
  }

  lemma SlashesPass(buf: string, k: nat, u: Pass)
    requires Stands(buf, k, [':', '/', '/']) && k <= |buf| && PassOver(buf, false, k) == u && u.s.ReqSchema?
    ensures k + 3 <= |buf| && PassOver(buf, false, k + 3) == u.(s := ReqServerStart)
  {
    hide UrlChar, PartOf, PassOver;
    SlashChars();
    assert buf[k] == ':' && buf[k + 1] == '/' && buf[k + 2] == '/' by {
      var text := buf[k..k + 3];
      assert text[0] == buf[k] && text[1] == buf[k + 1] && text[2] == buf[k + 2];
    }
    DelimiterPass(buf, false, k, u, ReqSchemaSlash);
    DelimiterPass(buf, false, k + 1, PassOver(buf, false, k + 1), ReqSchemaSlashSlash);
    DelimiterPass(buf, false, k + 2, PassOver(buf, false, k + 2), ReqServerStart);
  }

  lemma PassStartIs(buf: string, connect: bool)
    ensures PassOver(buf, connect, 0) == PassStart(connect)
    ensures PassStart(connect) == Pass(if connect then ReqServerStart else ReqSpacesBeforeUrl, map[], None, false)
  {
  }

  /** The pass over a server: its run and whether there is user information. */
  lemma ServerRunPass(buf: string, connect: bool, a: nat, s: Server, u: Pass)
    requires ServerOk(s) && |buf| <= 0xFFFF && Stands(buf, a, ServerText(s)) && a <= |buf| && PassOver(buf, connect, a) == u
    requires u.s.ReqServerStart? && Host !in u.fields && u.last != Some(Host) && !u.at
    ensures a + |ServerText(s)| <= |buf|
    ensures PassOver(buf, connect, a + |ServerText(s)|)
         == Pass(ReqServer, u.fields[Host := Span(a, |ServerText(s)|)], Some(Host), s.at)
  {
    hide ServerOk, ServerText, PassOver, ServerRunOk, PartOf, UrlChar;
    ServerRunFits(s);
    var n := a + |ServerText(s)|;
    assert buf[n - 1] == buf[a..n][n - a - 1];
    ServerPass(buf, connect, a, n, u);
  }

  lemma PathRun(buf: string, a: nat, path: string, u: Pass)
    requires |buf| <= 0xFFFF && Stands(buf, a, path) && a <= |buf| && PassOver(buf, false, a) == u
    requires path != [] && path[0] == '/' && forall c <- path :: Plain(c)
    requires u.s.ReqServer? && Path !in u.fields && u.last != Some(Path)
    ensures a + |path| <= |buf|
    ensures PassOver(buf, false, a + |path|) == Pass(ReqPath, u.fields[Path := Span(a, |path|)], Some(Path), u.at)
  {
    hide *;
    var n := a + |path|;
    StandsBytes(buf, a, path);
    TailDelimiters();
    TailParts();
    forall i | a < i < n ensures UrlChar(ReqPath, buf[i]) == ReqPath {
      PathChar(buf[i]);
    }
    ComponentPass(buf, false, a, n, u, ReqPath, Path);
  }

  lemma TailParts()
    ensures PartOf(ReqPath) == Some(Path) && PartOf(ReqQueryString) == Some(Query) && PartOf(ReqFragment) == Some(Fragment)
    ensures PartOf(ReqQueryStringStart) == None && PartOf(ReqFragmentStart) == None
  {
  }

  lemma QueryBytes(buf: string, a: nat, n: nat, query: string)
    requires n <= |buf| && (forall i :: a <= i < n ==> buf[i] in query) && forall c <- query :: Plain(c) || c == '?'
    ensures forall i :: a <= i < n ==>
              UrlChar(ReqQueryStringStart, buf[i]) == UrlChar(ReqQueryString, buf[i]) == ReqQueryString
  {
    hide UrlChar, Plain;
    forall i | a <= i < n ensures UrlChar(ReqQueryStringStart, buf[i]) == UrlChar(ReqQueryString, buf[i]) == ReqQueryString {
      QueryChars(buf[i]);
    }
  }

  /** The byte in front of a query or a fragment. */
  lemma MarkRun(buf: string, a: nat, c: char, text: string, u: Pass)
    requires Stands(buf, a, [c] + text) && a <= |buf| && PassOver(buf, false, a) == u
    requires (c == '?' && (u.s.ReqServer? || u.s.ReqPath?)) || (c == '#' && (u.s.ReqPath? || u.s.ReqQueryString?))
    ensures a + 1 <= |buf| && Stands(buf, a + 1, text)
    ensures PassOver(buf, false, a + 1) == u.(s := if c == '?' then ReqQueryStringStart else ReqFragmentStart)
  {
    hide *;
    StandsSplit(buf, a, [c], text);
    StandsOne(buf, a, c);
    TailDelimiters();
    TailParts();
    DelimiterPass(buf, false, a, u, if c == '?' then ReqQueryStringStart else ReqFragmentStart);
  }

  lemma QueryRun(buf: string, a: nat, query: string, u: Pass)
    requires |buf| <= 0xFFFF && Stands(buf, a, query) && a <= |buf| && PassOver(buf, false, a) == u
    requires query != [] && forall c <- query :: Plain(c) || c == '?'
    requires u.s.ReqQueryStringStart? && Query !in u.fields && u.last != Some(Query)
    ensures a + |query| <= |buf|
    ensures PassOver(buf, false, a + |query|) == Pass(ReqQueryString, u.fields[Query := Span(a, |query|)], Some(Query), u.at)
  {
    hide *;
    var n := a + |query|;
    StandsBytes(buf, a, query);
    TailParts();
    QueryBytes(buf, a, n, query);
    ComponentPass(buf, false, a, n, u, ReqQueryString, Query);
  }

  lemma FragmentBytes(buf: string, a: nat, n: nat, fragment: string)
    requires n <= |buf| && (forall i :: a <= i < n ==> buf[i] in fragment) && forall c <- fragment :: Plain(c) || c == '?' || c == '#'
    ensures forall i :: a <= i < n ==> UrlChar(ReqFragment, buf[i]) == ReqFragment
  {
    hide UrlChar, Plain;
    forall i | a <= i < n ensures UrlChar(ReqFragment, buf[i]) == ReqFragment {
      FragmentChars(buf[i]);
    }
  }

  lemma FragmentRun(buf: string, a: nat, fragment: string, u: Pass)
    requires |buf| <= 0xFFFF && Stands(buf, a, fragment) && a <= |buf| && PassOver(buf, false, a) == u
    requires fragment != [] && fragment[0] != '#' && forall c <- fragment :: Plain(c) || c == '?' || c == '#'
    requires u.s.ReqFragmentStart? && Fragment !in u.fields && u.last != Some(Fragment)
    ensures a + |fragment| <= |buf|
    ensures PassOver(buf, false, a + |fragment|) == Pass(ReqFragment, u.fields[Fragment := Span(a, |fragment|)], Some(Fragment), u.at)
  {
    hide *;
    var n := a + |fragment|;
    StandsBytes(buf, a, fragment);
    TailParts();
    FragmentChars(buf[a]);
    FragmentBytes(buf, a, n, fragment);
    ComponentPass(buf, false, a, n, u, ReqFragment, Fragment);
  }

  // ---- the tail, part by part ----

  function QueryText(t: Tail): string {
    if t.query == [] then [] else ['?'] + t.query
  }

  function FragmentText(t: Tail): string {
    if t.fragment == [] then [] else ['#'] + t.fragment
  }

  function WithPath(fields: Spans, t: Tail, a: nat): Spans {
    if t.path == [] then fields else fields[Path := Span(a, |t.path|)]
  }

  function WithQuery(fields: Spans, t: Tail, a: nat): Spans {
    var m := WithPath(fields, t, a);
    if t.query == [] then m else m[Query := Span(a + |t.path| + 1, |t.query|)]
  }

  /** The fields with those of a tail that starts at `a`. */
  function TailSpans(fields: Spans, t: Tail, a: nat): Spans {
    var m := WithQuery(fields, t, a);
    if t.fragment == [] then m else m[Fragment := Span(a + |t.path| + |QueryText(t)| + 1, |t.fragment|)]
  }

  predicate NoTail(u: Pass) {
    u.s.ReqServer? && u.last == Some(Host) && Path !in u.fields && Query !in u.fields && Fragment !in u.fields
  }

  lemma TailPass(buf: string, a: nat, t: Tail, u: Pass)
    requires TailOk(t) && |buf| <= 0xFFFF && Stands(buf, a, TailText(t)) && a <= |buf| && PassOver(buf, false, a) == u && NoTail(u)
    ensures a + |TailText(t)| <= |buf|
    ensures var v := PassOver(buf, false, a + |TailText(t)|);
            v.fields == TailSpans(u.fields, t, a) && v.at == u.at && Endable(v.s)
  {
    hide PassOver, Plain, Stands;
    StandsSplit(buf, a, t.path, QueryText(t) + FragmentText(t));
    var b := a + |t.path|;
    StandsSplit(buf, b, QueryText(t), FragmentText(t));
    StandsFits(buf, a, t.path);
    if t.path != [] {
      PathRun(buf, a, t.path, u);
    }
    StandsFits(buf, b, QueryText(t));
    if t.query != [] {
      MarkRun(buf, b, '?', t.query, PassOver(buf, false, b));
      QueryRun(buf, b + 1, t.query, PassOver(buf, false, b + 1));
    }
    var c := b + |QueryText(t)|;
    StandsFits(buf, c, FragmentText(t));
    if t.fragment != [] {
      MarkRun(buf, c, '#', t.fragment, PassOver(buf, false, c));
      FragmentRun(buf, c + 1, t.fragment, PassOver(buf, false, c + 1));
    }
  }

  // ---- both passes ----

  /** The field is the text; an empty text is a field that is missing. */
  predicate Reads(fields: Spans, buf: string, f: Part, text: string) {
    if text == [] then f !in fields else f in fields && fields[f].len == |text| && Stands(buf, fields[f].off, text)
  }

  lemma ServerSplits(buf: string, fields: Spans, s: Server, connect: bool)
    requires ServerOk(s) && |buf| <= 0xFFFF && Host in fields && UserInfo !in fields && Port !in fields
    requires Inside(fields[Host], |buf|) && fields[Host].len == |ServerText(s)| && Stands(buf, fields[Host].off, ServerText(s))
    ensures var m := ServerSpans(fields, s, fields[Host].off);
            SplitServer(buf, fields, s.at, connect)
            == if (connect && m.Keys != {Host, Port}) || DecValue(s.port) > 0xFFFF then None
               else Some(Split(m, DecValue(s.port)))
    ensures ServerReads(buf, ServerSpans(fields, s, fields[Host].off), s)
  {
    hide HostOver, Inside, ServerOk, ServerText, ServerSpans, Stands, DecValue, AllNum;
    ServerRead(buf, fields, s);
    ServerFields(buf, fields, s, fields[Host].off);
    PortValue(buf, ServerSpans(fields, s, fields[Host].off), s);
  }

  predicate ServerReads(buf: string, m: Spans, s: Server) {
    Reads(m, buf, UserInfo, s.user) && Reads(m, buf, Host, HostText(s)) && Reads(m, buf, Port, s.port)
  }

  lemma PortValue(buf: string, m: Spans, s: Server)
    requires Reads(m, buf, Port, s.port)
    ensures if s.port == [] then Port !in m && DecValue(s.port) == 0
            else Port in m && m[Port].off + m[Port].len <= |buf| && buf[m[Port].off..m[Port].off + m[Port].len] == s.port
  {
  }

  lemma ServerFields(buf: string, fields: Spans, s: Server, off: nat)
    requires ServerOk(s) && Stands(buf, off, ServerText(s)) && UserInfo !in fields && Port !in fields
    ensures ServerReads(buf, ServerSpans(fields, s, off), s)
    ensures var m := ServerSpans(fields, s, off);
            m.Keys == fields.Keys + {Host} + (if s.user == [] then {} else {UserInfo}) + if s.port == [] then {} else {Port}
  {
    hide ServerOk, ServerText, Stands, HostFrom, HostEnd, HostText;
    ServerStands(buf, s, off);
  }

  /** Where the components of a server stand. */
  lemma ServerStands(buf: string, s: Server, off: nat)
    requires ServerOk(s) && Stands(buf, off, ServerText(s))
    ensures HostText(s) != [] && Stands(buf, off + HostFrom(s), HostText(s))
    ensures s.user != [] ==> Stands(buf, off, s.user)
    ensures s.port != [] ==> Stands(buf, off + HostEnd(s) + 1, s.port)
  {
    hide ServerOk, ServerText, Stands;
    ServerParts(s);
    HostNonEmpty(s);
    ServerOkParts(s) by {
      hide *;
    }
    var a, b, c := UserText(s), OpenText(s) + (HostText(s) + CloseText(s)), PortText(s);
    StandsSplit(buf, off, a, b + c);
    StandsSplit(buf, off + |a|, b, c);
    StandsSplit(buf, off + |a|, OpenText(s), HostText(s) + CloseText(s));
    StandsSplit(buf, off + |a| + |OpenText(s)|, HostText(s), CloseText(s));
    if s.at {
      StandsSplit(buf, off, s.user, ['@']);
    }
    if s.port != [] {
      StandsSplit(buf, off + |a| + |b|, [':'], s.port);
    }
  }

  lemma TailReads(buf: string, fields: Spans, t: Tail, a: nat)
    requires Stands(buf, a, TailText(t)) && Path !in fields && Query !in fields && Fragment !in fields
    ensures var m := TailSpans(fields, t, a);
            Reads(m, buf, Path, t.path) && Reads(m, buf, Query, t.query) && Reads(m, buf, Fragment, t.fragment)
  {
    hide *;
    TailStands(buf, t, a);
    TailSpansAre(fields, t, a);
    var m := TailSpans(fields, t, a);
    ReadsIs(m, buf, Path, t.path);
    ReadsIs(m, buf, Query, t.query);
    ReadsIs(m, buf, Fragment, t.fragment);
  }

  lemma ReadsIs(fields: Spans, buf: string, f: Part, text: string)
    ensures Reads(fields, buf, f, text)
       <==> if text == [] then f !in fields else f in fields && fields[f].len == |text| && Stands(buf, fields[f].off, text)
  {
  }

  lemma TailSpansAre(fields: Spans, t: Tail, a: nat)
    requires Path !in fields && Query !in fields && Fragment !in fields
    ensures var m := TailSpans(fields, t, a);
            && (if t.path == [] then Path !in m else Path in m && m[Path] == Span(a, |t.path|))
            && (if t.query == [] then Query !in m else Query in m && m[Query] == Span(a + |t.path| + 1, |t.query|))
            && (if t.fragment == [] then Fragment !in m
                else Fragment in m && m[Fragment] == Span(a + |t.path| + |QueryText(t)| + 1, |t.fragment|))
  {
    hide QueryText;
  }

  lemma TailTexts(t: Tail)
    ensures TailText(t) == t.path + (QueryText(t) + FragmentText(t))
    ensures t.query != [] ==> QueryText(t) == ['?'] + t.query
    ensures t.fragment != [] ==> FragmentText(t) == ['#'] + t.fragment
  {
  }

  lemma TailStands(buf: string, t: Tail, a: nat)
    requires Stands(buf, a, TailText(t))
    ensures Stands(buf, a, t.path)
    ensures t.query != [] ==> Stands(buf, a + |t.path| + 1, t.query)
    ensures t.fragment != [] ==> Stands(buf, a + |t.path| + |QueryText(t)| + 1, t.fragment)
  {
    hide *;
    TailTexts(t);
    StandsSplit(buf, a, t.path, QueryText(t) + FragmentText(t));
    StandsSplit(buf, a + |t.path|, QueryText(t), FragmentText(t));
    if t.query != [] {
      StandsSplit(buf, a + |t.path|, ['?'], t.query);
    }
    if t.fragment != [] {
      StandsSplit(buf, a + |t.path| + |QueryText(t)|, ['#'], t.fragment);
    }
  }

  /** Splitting the server leaves the other fields alone. */
  lemma OthersRead(buf: string, fields: Spans, s: Server, off: nat, f: Part, text: string)
    requires Reads(fields, buf, f, text) && f != UserInfo && f != Host && f != Port
    ensures Reads(ServerSpans(fields, s, off), buf, f, text)
  {
    hide Stands, HostFrom, HostEnd, HostText;
  }

  /** The first pass over a whole URL. */
  lemma UrlFirstPass(schema: string, s: Server, t: Tail)
    requires SchemaOk(schema) && ServerOk(s) && TailOk(t) && |UrlText(schema, s, t)| <= 0xFFFF
    ensures var buf, off := UrlText(schema, s, t), |schema| + 3;
            var u := PassOver(buf, false, |buf|);
            && Stands(buf, 0, schema) && Stands(buf, off, ServerText(s)) && Stands(buf, off + |ServerText(s)|, TailText(t))
            && u.fields == TailSpans(map[Schema := Span(0, |schema|), Host := Span(off, |ServerText(s)|)], t, off + |ServerText(s)|)
            && u.at == s.at && Endable(u.s)
  {
    hide SchemaOk, ServerOk, TailOk, ServerText, TailText, PassOver, Stands, TailSpans;
    var buf, off := UrlText(schema, s, t), |schema| + 3;
    StandsAll(buf);
    StandsSplit(buf, 0, schema + [':', '/', '/'], ServerText(s) + TailText(t));
    StandsSplit(buf, off, ServerText(s), TailText(t));
    StandsSplit(buf, 0, schema, [':', '/', '/']);
    SchemaPass(buf, schema);
    ServerRunPass(buf, false, off, s, PassOver(buf, false, off));
    var e := off + |ServerText(s)|;
    TailPass(buf, e, t, PassOver(buf, false, e));
  }

  lemma StandsAll(buf: string)
    ensures Stands(buf, 0, buf)
  {
  }

  /** A URL printed from its components is split into them, the port in decimal; a port too large is refused. */
  lemma UrlSplits(schema: string, s: Server, t: Tail)
    requires SchemaOk(schema) && ServerOk(s) && TailOk(t) && |UrlText(schema, s, t)| <= 0xFFFF
    ensures var buf := UrlText(schema, s, t);
            && (SplitUrl(buf, false).Some? <==> DecValue(s.port) <= 0xFFFF)
            && (SplitUrl(buf, false).Some? ==>
                  var Split(fields, port) := SplitUrl(buf, false).value;
                  && Reads(fields, buf, Schema, schema) && ServerReads(buf, fields, s)
                  && Reads(fields, buf, Path, t.path) && Reads(fields, buf, Query, t.query)
                  && Reads(fields, buf, Fragment, t.fragment) && port == DecValue(s.port))
  {
    hide *;
    var buf, off: nat := UrlText(schema, s, t), |schema| + 3;
    var e: nat := off + |ServerText(s)|;
    UrlFirstPass(schema, s, t);
    var first := map[Schema := Span(0, |schema|), Host := Span(off, |ServerText(s)|)];
    var fields := TailSpans(first, t, e);
    TailKeys(first, t, e);
    SchemaReads(buf, schema, fields);
    TailReads(buf, first, t, e);
    UrlIs(schema, s, t);
    StandsFits(buf, off, ServerText(s));
    InsideIs(fields[Host], |buf|);
    ServerSplits(buf, fields, s, false);
    SplitUrlIs(buf, false);
    OthersRead(buf, fields, s, off, Schema, schema);
    OthersRead(buf, fields, s, off, Path, t.path);
    OthersRead(buf, fields, s, off, Query, t.query);
    OthersRead(buf, fields, s, off, Fragment, t.fragment);
  }

  lemma TailKeys(first: Spans, t: Tail, e: nat)
    ensures var m := TailSpans(first, t, e);
            && (forall f: Part :: f != Path && f != Query && f != Fragment ==> (f in m <==> f in first))
            && (forall f: Part :: f != Path && f != Query && f != Fragment && f in first ==> m[f] == first[f])
  {
    hide QueryText;
  }

  lemma SchemaReads(buf: string, schema: string, fields: Spans)
    requires SchemaOk(schema) && Stands(buf, 0, schema) && Schema in fields && fields[Schema] == Span(0, |schema|)
    ensures Reads(fields, buf, Schema, schema)
  {
    hide Stands, IsLetter;
  }

  lemma UrlIs(schema: string, s: Server, t: Tail)
    requires SchemaOk(schema) && ServerOk(s)
    ensures UrlText(schema, s, t) != [] && ServerText(s) != []
  {
    hide ServerText, ServerOk, IsLetter;
    ServerNonEmpty(s);
  }

  /** What the whole function makes of the first pass. */
  lemma SplitUrlIs(buf: string, connect: bool)
    requires |buf| <= 0xFFFF && buf != []
    ensures var u := PassOver(buf, connect, |buf|);
            Endable(u.s) && Host in u.fields && UserInfo !in u.fields && Port !in u.fields && Inside(u.fields[Host], |buf|) ==>
              SplitUrl(buf, connect) == SplitServer(buf, u.fields, u.at, connect)
  {
    hide PassOver, SplitServer, Inside;
  }

  lemma InsideIs(span: Span, n: nat)
    requires 0 < span.len && span.off + span.len <= n
    ensures Inside(span, n)
  {
  }

  /** The first pass over the server alone. */
  lemma ConnectFirstPass(s: Server)
    requires ServerOk(s) && |ServerText(s)| <= 0xFFFF
    ensures var buf := ServerText(s);
            Stands(buf, 0, buf)
            && PassOver(buf, true, |buf|) == Pass(ReqServer, map[Host := Span(0, |buf|)], Some(Host), s.at)
  {
    hide ServerOk, ServerText, PassOver;
    PassStartIs(ServerText(s), true);
    ServerRunPass(ServerText(s), true, 0, s, PassOver(ServerText(s), true, 0));
  }

  /** For CONNECT a server is split into host and port: both must be there, and no user information. */
  lemma ConnectSplits(s: Server)
    requires ServerOk(s) && |ServerText(s)| <= 0xFFFF
    ensures var buf := ServerText(s);
            && (SplitUrl(buf, true).Some? <==> s.user == [] && s.port != [] && DecValue(s.port) <= 0xFFFF)
            && (SplitUrl(buf, true).Some? ==>
                  var Split(fields, port) := SplitUrl(buf, true).value;
                  fields.Keys == {Host, Port} && ServerReads(buf, fields, s) && port == DecValue(s.port))
  {
    hide *;
    var buf := ServerText(s);
    var first := map[Host := Span(0, |buf|)];
    ConnectFirstPass(s);
    ServerNonEmpty(s);
    InsideIs(first[Host], |buf|);
    ServerSplits(buf, first, s, true);
    SplitUrlIs(buf, true);
    ServerFields(buf, first, s, 0);
    EndableServer();
    ConnectKeys(s, ServerSpans(first, s, 0));
  }

  lemma ConnectKeys(s: Server, m: Spans)
    requires m.Keys == {Host} + {Host} + (if s.user == [] then {} else {UserInfo}) + if s.port == [] then {} else {Port}
    ensures m.Keys == {Host, Port} <==> s.user == [] && s.port != []
  {
    assert UserInfo in m.Keys <==> s.user != [];
    assert Port in m.Keys <==> s.port != [];
  }

  lemma EndableServer()
    ensures Endable(ReqServer)
  {
  }

  lemma ServerNonEmpty(s: Server)
    requires ServerOk(s)
    ensures ServerText(s) != []
  {
    hide ServerText, ServerOk;
    ServerRunFits(s);
  }

  /** Such URLs can stand in a request line: those with a schema for every method but CONNECT, a server for CONNECT. */
  lemma UrlsReadable(verb: Method, schema: string, s: Server, t: Tail)
    requires SchemaOk(schema) && ServerOk(s) && TailOk(t) && |UrlText(schema, s, t)| <= 0xFFFF
    ensures verb != CONNECT ==> UrlOk(verb, UrlText(schema, s, t))
    ensures UrlOk(CONNECT, ServerText(s))
  {
    hide *;
    UrlIs(schema, s, t);
    UrlFirstPass(schema, s, t);
    StandsFits(UrlText(schema, s, t), |schema| + 3, ServerText(s));
    ConnectFirstPass(s);
    EndableServer();
    UrlOkIs(verb, UrlText(schema, s, t));
    UrlOkIs(CONNECT, ServerText(s));
  }

  lemma UrlOkIs(verb: Method, url: string)
    ensures UrlOk(verb, url) <==> url != [] && Endable(PassOver(url, verb == CONNECT, |url|).s)
  {
    hide PassOver, Endable;
  }
}
