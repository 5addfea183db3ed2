/** http_parser_parse_url: splitting a URL into its fields. */
module HttpUrl {
  import opened Wrappers
  import opened HttpChars
  import opened HttpTypes
  import opened HttpStep
  import opened HttpLength

  datatype Part = Schema | UserInfo | Host | Port | Path | Query | Fragment

  /** A run of the buffer, kept in two 16-bit numbers. */
  datatype Span = Span(off: nat, len: nat)

  type Spans = map<Part, Span>

  /** The filled fields and the port as a number. */
  datatype Split = Split(fields: Spans, port: nat)

  function U16(n: nat): nat {
    n % 0x1_0000
  }

  datatype HostState =
    | HostDead | UserInfoStart | InUserInfo | HostStart | V6Start | InHost | InV6 | V6End | ZoneStart | InZone
    | PortStart | InPort

  predicate IsZoneChar(ch: char) {
    IsAlphaNum(ch) || ch in "%.-_~"
  }

  /** http_parse_host_char */
  function HostChar(s: HostState, ch: char): HostState {
    match s
    case UserInfoStart => UserInfoChar(ch)
    case InUserInfo => UserInfoChar(ch)
    case HostStart => if ch == '[' then V6Start else if IsHostChar(ch) then InHost else HostDead
    case InHost => if IsHostChar(ch) then InHost else if ch == ':' then PortStart else HostDead
    case V6End => if ch == ':' then PortStart else HostDead
    case InV6 =>
      if ch == ']' then V6End
      else if IsHex(ch) || ch == ':' || ch == '.' then InV6
      else if ch == '%' then ZoneStart else HostDead
    case V6Start => if IsHex(ch) || ch == ':' || ch == '.' then InV6 else HostDead
    case InZone => if ch == ']' then V6End else if IsZoneChar(ch) then InZone else HostDead
    case ZoneStart => if IsZoneChar(ch) then InZone else HostDead
    case InPort => if IsNum(ch) then InPort else HostDead
    case PortStart => if IsNum(ch) then InPort else HostDead
    case HostDead => HostDead
  }

  function UserInfoChar(ch: char): HostState {
    if ch == '@' then HostStart else if IsUserInfoChar(ch) then InUserInfo else HostDead
  }

  // ---- specification: the same passes as folds over the bytes read ----

  /** One byte more in a field, which may be its first. */
  function Grow(fields: Spans, f: Part, p: nat, first: bool): Spans {
    if first || f !in fields then fields[f := Span(U16(p), 1)]
    else fields[f := fields[f].(len := U16(fields[f].len + 1))]
  }

  /** The field a byte that leads to state `s` belongs to; delimiters belong to none. */
  function PartOf(s: State): Option<Part> {
    match s
    case ReqSchema => Some(Schema)
    case ReqServerWithAt => Some(Host)
    case ReqServer => Some(Host)
    case ReqPath => Some(Path)
    case ReqQueryString => Some(Query)
    case ReqFragment => Some(Fragment)
    case _ => None
  }

  datatype Pass = Pass(s: State, fields: Spans, last: Option<Part>, at: bool)

  function PassStart(isConnect: bool): Pass {
    Pass(if isConnect then ReqServerStart else ReqSpacesBeforeUrl, map[], None, false)
  }

  function PassByte(u: Pass, ch: char, p: nat): Pass {
    var s := UrlChar(u.s, ch);
    var f := PartOf(s);
    if f == None then u.(s := s)
    else Pass(s, Grow(u.fields, f.value, p, f != u.last), f, u.at || s == ReqServerWithAt)
  }

  /** The first pass over the first `n` bytes. */
  function PassOver(buf: string, isConnect: bool, n: nat): Pass
    requires n <= |buf|
  {
    if n == 0 then PassStart(isConnect) else PassByte(PassOver(buf, isConnect, n - 1), buf[n - 1], n - 1)
  }

  datatype HostPass = HostPass(s: HostState, fields: Spans)

  /** The field a host byte belongs to, by the state it leads to. */
  function HostPart(s: HostState): Option<Part> {
    match s
    case InHost => Some(Host)
    case InV6 => Some(Host)
    case ZoneStart => Some(Host)
    case InZone => Some(Host)
    case InPort => Some(Port)
    case InUserInfo => Some(UserInfo)
    case _ => None
  }

  function HostByte(h: HostPass, ch: char, p: nat): HostPass
    requires Host in h.fields
  {
    var s := HostChar(h.s, ch);
    var fields := match s
      case InHost => HostGrow(h.fields, p, h.s != InHost)
      case InV6 => HostGrow(h.fields, p, h.s != InV6)
      case ZoneStart => HostGrow(h.fields, p, false)
      case InZone => HostGrow(h.fields, p, false)
      case InPort => Grow(h.fields, Port, p, h.s != InPort)
      case InUserInfo => Grow(h.fields, UserInfo, p, h.s != InUserInfo)
      case _ => h.fields;
    HostPass(s, fields)
  }

  /** The host keeps its length when its start moves. */
  function HostGrow(fields: Spans, p: nat, first: bool): Spans
    requires Host in fields
  {
    fields[Host := Span(if first then U16(p) else fields[Host].off, U16(fields[Host].len + 1))]
  }

  /** http_parse_host over the first `n` bytes of the server run. */
  function HostOver(buf: string, fields: Spans, at: bool, n: nat): (h: HostPass)
    requires Host in fields && fields[Host].off + n <= |buf|
    ensures Host in h.fields
  {
    var off := fields[Host].off;
    if n == 0 then HostPass(if at then UserInfoStart else HostStart, fields[Host := Span(off, 0)])
    else HostByte(HostOver(buf, fields, at, n - 1), buf[off + n - 1], off + n - 1)
  }

  predicate HostComplete(s: HostState) {
    s.InHost? || s.V6End? || s.InPort?
  }

  // ---- what the first pass keeps ----

  function Rank(f: Part): nat {
    match f
    case Schema => 0 case UserInfo => 1 case Host => 2 case Port => 3 case Path => 4 case Query => 5 case Fragment => 6
  }

  predicate Inside(span: Span, n: nat) {
    0 < span.len && span.off + span.len <= n
  }

  predicate Precedes(fields: Spans, f: Part, g: Part) {
    f in fields && g in fields && Rank(f) < Rank(g) ==> fields[f].off + fields[f].len <= fields[g].off
  }

  /** Every field is a non-empty run that ends by `n`; fields do not overlap and stand in URL order. */
  predicate InOrder(fields: Spans, n: nat) {
    (forall f <- fields :: Inside(fields[f], n)) && forall f: Part, g: Part :: Precedes(fields, f, g)
  }

  predicate EndsAt(fields: Spans, f: Part, n: nat) {
    f in fields && fields[f].off + fields[f].len == n
  }

  predicate Within(fields: Spans, a: set<Part>) {
    fields.Keys <= a
  }

  /** What the state says about the fields. */
  predicate PassInv(u: Pass, n: nat) {
    && InOrder(u.fields, n)
    && (u.last.Some? ==> u.last.value in u.fields)
    && match u.s
       case ReqSpacesBeforeUrl => u.fields == map[] && u.last == None
       case ReqSchema => Within(u.fields, {Schema}) && u.last == Some(Schema) && EndsAt(u.fields, Schema, n)
       case ReqSchemaSlash => Within(u.fields, {Schema}) && u.last == Some(Schema)
       case ReqSchemaSlashSlash => Within(u.fields, {Schema}) && u.last == Some(Schema)
       case ReqServerStart => Within(u.fields, {Schema}) && u.last != Some(Host)
       case ReqServer => Within(u.fields, {Schema, Host}) && u.last == Some(Host) && EndsAt(u.fields, Host, n)
       case ReqServerWithAt => Within(u.fields, {Schema, Host}) && u.last == Some(Host) && EndsAt(u.fields, Host, n)
       case ReqPath => Within(u.fields, {Schema, Host, Path}) && u.last == Some(Path) && EndsAt(u.fields, Path, n)
       case ReqQueryStringStart => Within(u.fields, {Schema, Host, Path}) && u.last != Some(Query)
       case ReqQueryString => Within(u.fields, {Schema, Host, Path, Query}) && u.last == Some(Query) && EndsAt(u.fields, Query, n)
       case ReqFragmentStart => Within(u.fields, {Schema, Host, Path, Query}) && u.last != Some(Fragment)
       case ReqFragment =>
         Within(u.fields, {Schema, Host, Path, Query, Fragment}) && u.last == Some(Fragment) && EndsAt(u.fields, Fragment, n)
       case _ => u.s == Dead
  }

  lemma Narrow(n: nat)
    requires n < 0x1_0000
    ensures U16(n) == n
  {
  }

  /** Growing a run that ends at `p`, or starting one behind all others, keeps the order. */
  lemma GrowKeeps(fields: Spans, f: Part, p: nat, first: bool)
    requires InOrder(fields, p) && p < 0xFFFF
    requires forall g <- fields :: g != f ==> Rank(g) < Rank(f)
    requires if first then f !in fields else EndsAt(fields, f, p)
    ensures var grown := Grow(fields, f, p, first);
            InOrder(grown, p + 1) && EndsAt(grown, f, p + 1) && grown.Keys == fields.Keys + {f}
  {
    Narrow(p);
    if f in fields {
      assert Inside(fields[f], p);
      Narrow(fields[f].len + 1);
    }
    hide U16, Rank;
    var grown := Grow(fields, f, p, first);
    var span := if first then Span(p, 1) else Span(fields[f].off, fields[f].len + 1);
    assert grown == fields[f := span];
    forall g | g in grown ensures Inside(grown[g], p + 1) {
      if g != f {
        assert Inside(fields[g], p);
      }
    }
    forall g: Part, h: Part ensures Precedes(grown, g, h) {
      if g in grown && h in grown && Rank(g) < Rank(h) && g != f {
        assert Inside(fields[g], p);
        if h != f || !first {
          assert Precedes(fields, g, h);
        }
      }
    }
  }

  /** What is known of the field a byte belongs to. */
  lemma PartFits(u: Pass, ch: char, p: nat)
    requires PassInv(u, p) && PartOf(UrlChar(u.s, ch)).Some?
    ensures var f := PartOf(UrlChar(u.s, ch)).value;
            && (forall g <- u.fields :: g != f ==> Rank(g) < Rank(f))
            && (if Some(f) != u.last then f !in u.fields else EndsAt(u.fields, f, p))
  {
    hide InOrder;
    match u.s {
      case ReqSpacesBeforeUrl => case ReqSchema => case ReqSchemaSlash => case ReqSchemaSlashSlash =>
      case ReqServerStart => case ReqServer => case ReqServerWithAt => case ReqPath => case ReqQueryStringStart =>
      case ReqQueryString => case ReqFragmentStart => case ReqFragment =>
    }
  }

  lemma PassByteKeeps(u: Pass, ch: char, p: nat)
    requires PassInv(u, p) && p < 0xFFFF && UrlChar(u.s, ch) != Dead
    ensures PassInv(PassByte(u, ch, p), p + 1)
  {
    hide *;
    var s := UrlChar(u.s, ch);
    PassByteParts(u, ch, p);
    if PartOf(s).Some? {
      var f := PartOf(s).value;
      PartFits(u, ch, p);
      PassInOrder(u, p);
      GrowKeeps(u.fields, f, p, Some(f) != u.last);
      FieldsBefore(u, ch, p);
      PartKeeps(s, u.fields, Grow(u.fields, f, p, Some(f) != u.last), f, u.at || s == ReqServerWithAt, p + 1);
    } else {
      GapKeeps(u, ch, p);
    }
  }

  lemma PassInOrder(u: Pass, n: nat)
    requires PassInv(u, n)
    ensures InOrder(u.fields, n)
  {
    hide InOrder;
  }

  lemma PartKeeps(s: State, fields: Spans, grown: Spans, f: Part, at: bool, n: nat)
    requires PartOf(s) == Some(f) && FieldsOf(s, fields)
    requires InOrder(grown, n) && EndsAt(grown, f, n) && f in grown && grown.Keys == fields.Keys + {f}
    ensures PassInv(Pass(s, grown, Some(f), at), n)
  {
    hide InOrder, EndsAt;
  }

  /** A byte between components. */
  lemma GapKeeps(u: Pass, ch: char, p: nat)
    requires PassInv(u, p) && UrlChar(u.s, ch) != Dead && PartOf(UrlChar(u.s, ch)) == None
    ensures PassInv(Pass(UrlChar(u.s, ch), u.fields, u.last, u.at), p + 1)
  {
    hide InOrder, EndsAt;
    UrlCharParts(u.s, ch);
    InOrderLater(u.fields, p);
  }

  /** The fields there can be before a byte of a component. */
  predicate FieldsOf(s: State, fields: Spans) {
    match s
    case ReqSchema => Within(fields, {Schema})
    case ReqServer => Within(fields, {Schema, Host})
    case ReqServerWithAt => Within(fields, {Schema, Host})
    case ReqPath => Within(fields, {Schema, Host, Path})
    case ReqQueryString => Within(fields, {Schema, Host, Path, Query})
    case ReqFragment => Within(fields, {Schema, Host, Path, Query, Fragment})
    case _ => false
  }

  lemma FieldsBefore(u: Pass, ch: char, p: nat)
    requires PassInv(u, p) && PartOf(UrlChar(u.s, ch)).Some?
    ensures FieldsOf(UrlChar(u.s, ch), u.fields)
  {
    hide InOrder, EndsAt;
    match u.s {
      case ReqSpacesBeforeUrl => case ReqSchema => case ReqSchemaSlash => case ReqSchemaSlashSlash =>
      case ReqServerStart => case ReqServer => case ReqServerWithAt => case ReqPath => case ReqQueryStringStart =>
      case ReqQueryString => case ReqFragmentStart => case ReqFragment =>
    }
  }

  lemma UrlCharParts(s: State, ch: char)
    ensures var next := UrlChar(s, ch);
            next == Dead || PartOf(next).Some? || next.ReqSchemaSlash? || next.ReqSchemaSlashSlash? || next.ReqServerStart?
            || next.ReqQueryStringStart? || next.ReqFragmentStart?
  {
  }

  lemma InOrderLater(fields: Spans, n: nat)
    requires InOrder(fields, n)
    ensures InOrder(fields, n + 1)
  {
    forall f <- fields ensures Inside(fields[f], n + 1) {
      assert Inside(fields[f], n);
    }
  }

  lemma PassStartInv(isConnect: bool)
    ensures PassInv(PassStart(isConnect), 0)
  {
  }

  lemma {:induction false} PassOverKeeps(buf: string, isConnect: bool, n: nat)
    requires n <= |buf| <= 0xFFFF && PassOver(buf, isConnect, n).s != Dead
    ensures PassInv(PassOver(buf, isConnect, n), n)
  {
    hide PassInv, PassByte, PassStart, UrlChar;
    PassStartInv(isConnect);
    if n == 0 {
    } else {
      PassByteState(PassOver(buf, isConnect, n - 1), buf[n - 1], n - 1);
      PassOverKeeps(buf, isConnect, n - 1);
      PassByteKeeps(PassOver(buf, isConnect, n - 1), buf[n - 1], n - 1);
    }
  }

  // ---- what the host pass keeps ----

  /** What the state says about the fields inside the server run, which starts at `off`, after reading up to `p`. */
  predicate HostInv(h: HostPass, buf: string, off: nat, p: nat)
    requires Host in h.fields && p <= |buf|
  {
    var host := h.fields[Host];
    && off <= p
    && (UserInfo in h.fields ==>
          var user := h.fields[UserInfo];
          && off <= user.off && 0 < user.len && user.off + user.len <= p
          && (host.len > 0 ==> user.off + user.len <= host.off))
    && (Port in h.fields ==> h.s.InPort?)
    && match h.s
       case UserInfoStart => host.len == 0 && UserInfo !in h.fields
       case InUserInfo => host.len == 0 && EndsAt(h.fields, UserInfo, p)
       case HostStart => host.len == 0
       case V6Start => host.len == 0
       case InHost => off <= host.off && host.len > 0 && EndsAt(h.fields, Host, p)
       case InV6 => off <= host.off && host.len > 0 && EndsAt(h.fields, Host, p)
       case ZoneStart => off <= host.off && host.len > 0 && EndsAt(h.fields, Host, p)
       case InZone => off <= host.off && host.len > 0 && EndsAt(h.fields, Host, p)
       case V6End => off <= host.off && host.len > 0 && host.off + host.len <= p
       case PortStart => off <= host.off && host.len > 0 && host.off + host.len <= p
       case InPort =>
         && off <= host.off && host.len > 0
         && Port in h.fields
         && var port := h.fields[Port];
            host.off + host.len <= port.off && 0 < port.len && port.off + port.len == p && AllNum(buf[port.off..p])
       case HostDead => true
  }

  lemma HostByteKeeps(h: HostPass, buf: string, off: nat, p: nat)
    requires Host in h.fields && p < |buf| <= 0xFFFF && HostInv(h, buf, off, p) && HostChar(h.s, buf[p]) != HostDead
    ensures HostInv(HostByte(h, buf[p], p), buf, off, p + 1)
  {
    Narrow(p);
    Narrow(h.fields[Host].len + 1);
    if UserInfo in h.fields {
      Narrow(h.fields[UserInfo].len + 1);
    }
    if Port in h.fields {
      var port := h.fields[Port];
      Narrow(port.len + 1);
      assert buf[port.off..p + 1] == buf[port.off..p] + [buf[p]];
    }
    assert buf[p..p + 1] == [buf[p]];
    hide U16, IsUserInfoChar, IsHostChar, IsHex, IsZoneChar;
    match h.s {
      case UserInfoStart => case InUserInfo => case HostStart => case V6Start => case InHost => case InV6 =>
      case V6End => case ZoneStart => case InZone => case PortStart => case InPort =>
    }
  }

  /** The fields outside the server run. */
  predicate OutsideSame(a: Spans, b: Spans) {
    forall f: Part :: f != UserInfo && f != Host && f != Port ==> ((f in a <==> f in b) && (f in a ==> a[f] == b[f]))
  }

  lemma HostByteOutside(h: HostPass, ch: char, p: nat)
    requires Host in h.fields
    ensures OutsideSame(HostByte(h, ch, p).fields, h.fields)
  {
    hide HostChar, U16;
  }

  lemma {:induction false} HostOverKeeps(buf: string, fields: Spans, at: bool, n: nat)
    requires Host in fields && UserInfo !in fields && Port !in fields && fields[Host].off + n <= |buf| <= 0xFFFF
    requires HostOver(buf, fields, at, n).s != HostDead
    ensures var h := HostOver(buf, fields, at, n);
            HostInv(h, buf, fields[Host].off, fields[Host].off + n) && OutsideSame(h.fields, fields)
  {
    hide HostInv, HostChar, OutsideSame, HostByte;
    var off := fields[Host].off;
    if n == 0 {
      HostStartInv(buf, fields, at);
    } else {
      var h := HostOver(buf, fields, at, n - 1);
      var h' := HostByte(h, buf[off + n - 1], off + n - 1);
      HostByteState(h, buf[off + n - 1], off + n - 1);
      HostOverKeeps(buf, fields, at, n - 1);
      HostByteKeeps(h, buf, off, off + n - 1);
      HostByteOutside(h, buf[off + n - 1], off + n - 1);
      OutsideThrough(h'.fields, h.fields, fields);
    }
  }

  lemma HostStartInv(buf: string, fields: Spans, at: bool)
    requires Host in fields && UserInfo !in fields && Port !in fields && fields[Host].off <= |buf|
    ensures var h := HostOver(buf, fields, at, 0); HostInv(h, buf, fields[Host].off, fields[Host].off) && OutsideSame(h.fields, fields)
  {
  }

  lemma OutsideThrough(a: Spans, b: Spans, c: Spans)
    requires OutsideSame(a, b) && OutsideSame(b, c)
    ensures OutsideSame(a, c)
  {
  }

  lemma HostByteState(h: HostPass, ch: char, p: nat)
    requires Host in h.fields
    ensures HostByte(h, ch, p).s == HostChar(h.s, ch) && Host in HostByte(h, ch, p).fields
    ensures h.s == HostDead ==> HostByte(h, ch, p).s == HostDead
  {
  }

  lemma FirstPassParts(u: Pass, n: nat)
    requires PassInv(u, n) && u.s != Dead
    ensures UserInfo !in u.fields && Port !in u.fields && InOrder(u.fields, n)
    ensures Host in u.fields ==> Inside(u.fields[Host], n)
  {
    hide Precedes, Inside;
  }

  lemma PortRun(h: HostPass, buf: string, off: nat, p: nat)
    requires Host in h.fields && p <= |buf| && HostInv(h, buf, off, p) && HostComplete(h.s)
    ensures Port in h.fields ==>
              var port := h.fields[Port]; port.off + port.len <= |buf| && AllNum(buf[port.off..port.off + port.len])
  {
  }

  // ---- the whole function ----

  /** The run of the buffer that http_parse_host splits. */
  function ServerRun(buf: string, isConnect: bool): Option<Span> {
    var u := PassOver(buf, isConnect, |buf|);
    if Host in u.fields then Some(u.fields[Host]) else None
  }

  predicate InsideOf(span: Span, run: Span) {
    run.off <= span.off && span.off + span.len <= run.off + run.len
  }

  /** The server run split, with the port as a number. */
  function SplitServer(buf: string, fields: Spans, at: bool, isConnect: bool): Option<Split>
    requires |buf| <= 0xFFFF && Host in fields && UserInfo !in fields && Port !in fields && Inside(fields[Host], |buf|)
  {
    var Span(from, n) := fields[Host];
    var h := HostOver(buf, fields, at, n);
    if !HostComplete(h.s) || (isConnect && h.fields.Keys != {Host, Port}) then None
    else if Port !in h.fields then Some(Split(h.fields, 0))
    else
      HostOverKeeps(buf, fields, at, n);
      PortRun(h, buf, from, from + n);
      var Span(off, len) := h.fields[Port];
      var port := DecValue(buf[off..off + len]);
      if port > 0xFFFF then None else Some(Split(h.fields, port))
  }

  /** The result of http_parser_parse_url. */
  function SplitUrl(buf: string, isConnect: bool): Option<Split>
    requires |buf| <= 0xFFFF
  {
    var u := PassOver(buf, isConnect, |buf|);
    if buf == [] || u.s == Dead || (Schema in u.fields && Host !in u.fields) then None
    else
      PassOverKeeps(buf, isConnect, |buf|);
      FirstPassParts(u, |buf|);
      if Host in u.fields then SplitServer(buf, u.fields, u.at, isConnect)
      else if isConnect then None
      else Some(Split(u.fields, 0))
  }

  /** On success every field is a non-empty run inside the buffer, fields do not overlap and stand in URL order,
      user info, host and port lie inside the server run, and the port is the decimal value of its digits. */
  lemma SplitUrlSound(buf: string, isConnect: bool)
    requires |buf| <= 0xFFFF && SplitUrl(buf, isConnect).Some?
    ensures var Split(fields, port) := SplitUrl(buf, isConnect).value;
            && InOrder(fields, |buf|)
            && (forall f <- fields :: f == UserInfo || f == Host || f == Port ==>
                  Host in fields && ServerRun(buf, isConnect).Some? && InsideOf(fields[f], ServerRun(buf, isConnect).value))
            && (Schema in fields ==> Host in fields)
            && (isConnect ==> fields.Keys == {Host, Port})
            && (if Port in fields
                then var digits := buf[fields[Port].off..fields[Port].off + fields[Port].len];
                     AllNum(digits) && port == DecValue(digits) <= 0xFFFF
                else port == 0)
  {
    hide PassInv, InOrder, PassOver, InsideOf, AllNum, SplitServer;
    var u := PassOver(buf, isConnect, |buf|);
    PassOverKeeps(buf, isConnect, |buf|);
    FirstPassParts(u, |buf|);
    if Host in u.fields {
      SplitServerSound(buf, u.fields, u.at, isConnect);
    }
  }

  lemma SplitServerSound(buf: string, first: Spans, at: bool, isConnect: bool)
    requires |buf| <= 0xFFFF && Host in first && UserInfo !in first && Port !in first && InOrder(first, |buf|)
    requires Inside(first[Host], |buf|) && SplitServer(buf, first, at, isConnect).Some?
    ensures var Split(fields, port) := SplitServer(buf, first, at, isConnect).value;
            && InOrder(fields, |buf|)
            && (forall f <- fields :: f == UserInfo || f == Host || f == Port ==> InsideOf(fields[f], first[Host]))
            && Host in fields
            && (isConnect ==> fields.Keys == {Host, Port})
            && (if Port in fields
                then var digits := buf[fields[Port].off..fields[Port].off + fields[Port].len];
                     AllNum(digits) && port == DecValue(digits) <= 0xFFFF
                else port == 0)
  {
    hide InOrder, HostInv, OutsideSame, HostOver, InsideOf, AllNum, DecValue;
    var Span(from, n) := first[Host];
    var h := HostOver(buf, first, at, n);
    HostOverKeeps(buf, first, at, n);
    MergedInOrder(buf, first, h);
    PortRun(h, buf, from, from + n);
  }

  /** Replacing the server run by its parts keeps the order. */
  lemma MergedInOrder(buf: string, fields: Spans, h: HostPass)
    requires Host in fields && UserInfo !in fields && Port !in fields && InOrder(fields, |buf|)
    requires Host in h.fields && fields[Host].off + fields[Host].len <= |buf|
    requires HostInv(h, buf, fields[Host].off, fields[Host].off + fields[Host].len) && OutsideSame(h.fields, fields)
    requires HostComplete(h.s)
    ensures InOrder(h.fields, |buf|)
    ensures forall f <- h.fields :: f == UserInfo || f == Host || f == Port ==> InsideOf(h.fields[f], fields[Host])
  {
    forall f <- h.fields ensures Inside(h.fields[f], |buf|) {
      if f in fields {
        assert Inside(fields[f], |buf|);
      }
    }
    forall f: Part, g: Part ensures Precedes(h.fields, f, g) {
      if f in h.fields && g in h.fields && Rank(f) < Rank(g) {
        var f', g' := if f == UserInfo || f == Port then Host else f, if g == UserInfo || g == Port then Host else g;
        assert Precedes(fields, f', g');
      }
    }
  }

  // ---- runs of one component ----

  /** The next byte of a component: its first or one more. */
  lemma Grows(fields: Spans, f: Part, a: nat, n: nat)
    requires a <= n < 0xFFFF && f !in fields
    ensures Grow(fields, f, a, true) == fields[f := Span(a, 1)]
    ensures a < n ==> Grow(fields[f := Span(a, n - a)], f, n, false) == fields[f := Span(a, n + 1 - a)]
  {
    Narrow(a);
    Narrow(n + 1 - a);
    var grown := fields[f := Span(a, n - a)];
    assert grown[f := Span(a, n + 1 - a)] == fields[f := Span(a, n + 1 - a)];
  }

  /** A component whose bytes from `a` on lead to `s` and belong to `f`. */
  lemma {:induction false} ComponentPass(url: string, connect: bool, a: nat, n: nat, u: Pass, s: State, f: Part)
    requires a < n <= |url| <= 0xFFFF && PassOver(url, connect, a) == u && f !in u.fields && u.last != Some(f)
    requires PartOf(s) == Some(f) && s != ReqServerWithAt && UrlChar(u.s, url[a]) == s
    requires forall i :: a < i < n ==> UrlChar(s, url[i]) == s
    ensures PassOver(url, connect, n) == Pass(s, u.fields[f := Span(a, n - a)], Some(f), u.at)
    decreases n
  {
    hide UrlChar, PartOf, Grow, PassByte;
    Grows(u.fields, f, a, n - 1);
    PassByteParts(PassOver(url, connect, n - 1), url[n - 1], n - 1);
    if n == a + 1 {
    } else {
      ComponentPass(url, connect, a, n - 1, u, s, f);
    }
  }

  lemma DelimiterPass(url: string, connect: bool, a: nat, u: Pass, s: State)
    requires a < |url| && PassOver(url, connect, a) == u && UrlChar(u.s, url[a]) == s && PartOf(s) == None
    ensures PassOver(url, connect, a + 1) == u.(s := s)
  {
    hide UrlChar, PartOf, PassByte;
    PassByteParts(u, url[a], a);
  }

  // ---- the loops ----

  /** A dead pass stays dead. */
  lemma PassByteState(u: Pass, ch: char, p: nat)
    ensures PassByte(u, ch, p).s == UrlChar(u.s, ch) && (u.s == Dead ==> UrlChar(u.s, ch) == Dead)
  {
  }

  /** The steps of the loop make up one step of the pass. */
  lemma PassByteParts(u: Pass, ch: char, p: nat)
    ensures var s := UrlChar(u.s, ch);
            var f := PartOf(s);
            PassByte(u, ch, p) ==
            if f == None then Pass(s, u.fields, u.last, u.at)
            else Pass(s, Grow(u.fields, f.value, p, f != u.last), f, u.at || s == ReqServerWithAt)
    ensures PartOf(ReqServerWithAt) == Some(Host)
  {
    hide UrlChar, Grow;
  }

  lemma {:induction false} DeadStays(buf: string, isConnect: bool, i: nat, n: nat)
    requires i <= n <= |buf| && PassOver(buf, isConnect, i).s == Dead
    ensures PassOver(buf, isConnect, n).s == Dead
    decreases n
  {
    hide PassByte, UrlChar;
    if i == n {
    } else {
      DeadStays(buf, isConnect, i, n - 1);
      PassByteState(PassOver(buf, isConnect, n - 1), buf[n - 1], n - 1);
    }
  }

  lemma HostByteParts(h: HostPass, ch: char, p: nat)
    requires Host in h.fields
    ensures var s := HostChar(h.s, ch);
            var f := HostPart(s);
            HostByte(h, ch, p) ==
            if f == None then HostPass(s, h.fields)
            else if f == Some(Host) then
              HostPass(s, HostGrow(h.fields, p, (s == InHost && h.s != InHost) || (s == InV6 && h.s != InV6)))
            else HostPass(s, Grow(h.fields, f.value, p, s != h.s))
  {
    hide HostChar, Grow, HostGrow;
  }

  lemma {:induction false} HostDeadStays(buf: string, fields: Spans, at: bool, i: nat, n: nat)
    requires Host in fields && i <= n && fields[Host].off + n <= |buf| && HostOver(buf, fields, at, i).s == HostDead
    ensures HostOver(buf, fields, at, n).s == HostDead
    decreases n
  {
    if i == n {
    } else {
      HostDeadStays(buf, fields, at, i, n - 1);
      HostByteState(HostOver(buf, fields, at, n - 1), buf[fields[Host].off + n - 1], fields[Host].off + n - 1);
    }
  }

  /** struct http_parser_url: which fields are set and where they lie, and the port. */
  class ParsedUrl {
    var fields: Spans
    var port: nat

    constructor ()
      ensures fields == map[] && port == 0
    {
      fields, port := map[], 0;
    }

    /** http_parser_parse_url: fills the fields and returns 0, or returns 1. */
    method Parse(buf: string, isConnect: bool) returns (code: nat)
      requires |buf| <= 0xFFFF
      modifies this
      ensures code == 0 <==> SplitUrl(buf, isConnect).Some?
      ensures code == 0 ==> Split(fields, port) == SplitUrl(buf, isConnect).value
    {
      hide UrlChar, PassByte, PartOf, Grow, SplitServer, PassInv, InOrder;
      if |buf| == 0 {
        return 1;
      }
      port, fields := 0, map[];
      var s := if isConnect then ReqServerStart else ReqSpacesBeforeUrl;
      var last: Option<Part>, foundAt := None, false;
      for p := 0 to |buf|
        invariant PassOver(buf, isConnect, p) == Pass(s, fields, last, foundAt) && port == 0
        invariant s != Dead
      {
        PassByteParts(PassOver(buf, isConnect, p), buf[p], p);
        s := UrlChar(s, buf[p]);
        if s == Dead {
          PassByteState(PassOver(buf, isConnect, p), buf[p], p);
          DeadStays(buf, isConnect, p + 1, |buf|);
          return 1;
        }
        var f := PartOf(s);
        if f.None? {
          continue;
        }
        if s == ReqServerWithAt {
          foundAt := true;
        }
        fields := Grow(fields, f.value, p, f != last);
        last := f;
      }
      if Schema in fields && Host !in fields {
        return 1;
      }
      PassOverKeeps(buf, isConnect, |buf|);
      FirstPassParts(PassOver(buf, isConnect, |buf|), |buf|);
      if Host in fields {
        code := Server(buf, foundAt, isConnect);
      } else {
        code := if isConnect then 1 else 0;
      }
    }

    /** The rest of the function once there is a server run. */
    method Server(buf: string, foundAt: bool, isConnect: bool) returns (code: nat)
      requires |buf| <= 0xFFFF && Host in fields && UserInfo !in fields && Port !in fields && Inside(fields[Host], |buf|)
      requires port == 0
      modifies this
      ensures code == 0 <==> SplitServer(buf, old(fields), foundAt, isConnect).Some?
      ensures code == 0 ==> Split(fields, port) == SplitServer(buf, old(fields), foundAt, isConnect).value
    {
      hide HostOver, InOrder, HostInv, OutsideSame;
      ghost var first := fields;
      code := ParseHost(buf, foundAt);
      if code != 0 {
        return 1;
      }
      if isConnect && fields.Keys != {Host, Port} {
        return 1;
      }
      if Port in fields {
        HostOverKeeps(buf, first, foundAt, first[Host].len);
        PortRun(HostOver(buf, first, foundAt, first[Host].len), buf, first[Host].off, first[Host].off + first[Host].len);
        code := ReadPort(buf);
      }
    }

    /** The last loop: the digits were checked by the state machine, only their value can be wrong. */
    method ReadPort(buf: string) returns (code: nat)
      requires Port in fields && fields[Port].off + fields[Port].len <= |buf|
      requires AllNum(buf[fields[Port].off..fields[Port].off + fields[Port].len])
      modifies this`port
      ensures var v := DecValue(buf[fields[Port].off..fields[Port].off + fields[Port].len]);
              if v <= 0xFFFF then code == 0 && port == v else code == 1 && port == old(port)
    {
      var Span(off, len) := fields[Port];
      ghost var digits := buf[off..off + len];
      var v := 0;
      for p := off to off + len
        invariant v == DecValue(digits[..p - off]) <= 0xFFFF
      {
        assert digits[..p + 1 - off][..p - off] == digits[..p - off] && digits[p - off] == buf[p];
        v := v * 10 + Digit(buf[p]);
        if v > 0xFFFF {
          DecValuePrefix(digits, p + 1 - off);
          return 1;
        }
      }
      assert digits[..len] == digits;
      port := v;
      code := 0;
    }

    /** http_parse_host: splits the server run into user info, host and port. */
    method ParseHost(buf: string, foundAt: bool) returns (code: nat)
      requires Host in fields && fields[Host].off + fields[Host].len <= |buf|
      modifies this`fields
      ensures code == 0 || code == 1
      ensures var first := old(fields);
              var h := HostOver(buf, first, foundAt, first[Host].len);
              code == 0 <==> HostComplete(h.s)
      ensures var first := old(fields);
              code == 0 ==> fields == HostOver(buf, first, foundAt, first[Host].len).fields
    {
      hide HostChar, HostByte, Grow, HostGrow;
      ghost var first := fields;
      var Span(off, n) := fields[Host];
      fields := fields[Host := Span(off, 0)];
      var s := if foundAt then UserInfoStart else HostStart;
      for i := 0 to n
        invariant HostOver(buf, first, foundAt, i) == HostPass(s, fields)
      {
        var p := off + i;
        HostByteParts(HostPass(s, fields), buf[p], p);
        var next := HostChar(s, buf[p]);
        if next == HostDead {
          HostDeadStays(buf, first, foundAt, i + 1, n);
          return 1;
        }
        if next.InHost? {
          fields := HostGrow(fields, p, s != InHost);
        } else if next.InV6? {
          fields := HostGrow(fields, p, s != InV6);
        } else if next.ZoneStart? || next.InZone? {
          fields := HostGrow(fields, p, false);
        } else if next.InPort? {
          fields := Grow(fields, Port, p, s != InPort);
        } else if next.InUserInfo? {
          fields := Grow(fields, UserInfo, p, s != InUserInfo);
        }
        s := next;
      }
      code := if HostComplete(s) then 0 else 1;
    }
  }
}
