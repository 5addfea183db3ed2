/** HttpRequest, its printer, and the parser callbacks that rebuild one. */
module HttpRequests {
  import opened Basics
  import opened Wrappers
  import opened CaseMap
  import opened HttpChars
  import opened HttpTypes
  import opened HttpStep
  import opened HttpRun
  import opened HttpInvariant
  import opened HttpExecute
  import opened HttpUrl
  import opened HttpRequestLine
  import opened HttpHeaderLines

  /** What an HttpRequest holds, without its parameter and cookie caches. */
  datatype Content = Content(verb: Method, version: nat, close: bool, websocket: bool, path: string, query: string,
                         fragment: string, headers: seq<Entry>, body: string)

  // ---- the text dump prints ----

  function Decimal(n: nat): string {
    if n < 10 then [DigitChar(n)] else Decimal(n / 10) + [DigitChar(n % 10)]
  }

  function Target(r: Content): string {
    r.path + (if r.query == [] then "" else "?") + r.query + (if r.fragment == [] then "" else "#") + r.fragment
  }

  function StartLine(r: Content): string {
    MethodString(r.verb) + " " + Target(r) + " HTTP/" + Decimal(r.version / 16) + "." + Decimal(r.version % 16) + "\r\n"
  }

  predicate Skipped(r: Content, e: Entry) {
    (!r.websocket && Same(e.key, "connection")) || (r.body != [] && Same(e.key, "content-length"))
  }

  /** The headers of the map that are printed. */
  function Kept(r: Content, es: seq<Entry>): seq<Entry> {
    if es == [] then []
    else Kept(r, es[..|es| - 1]) + (if Skipped(r, es[|es| - 1]) then [] else [es[|es| - 1]])
  }

  function OwnConnection(r: Content): seq<Entry> {
    if r.websocket then [] else [Entry("connection", if r.close then "close" else "keep-alive")]
  }

  function OwnLength(r: Content): seq<Entry> {
    if r.body == [] then [] else [Entry("content-length", Decimal(|r.body|))]
  }

  /** All header lines, in the order printed. */
  function PrintedHeaders(r: Content): seq<Entry> {
    OwnConnection(r) + Kept(r, r.headers) + OwnLength(r)
  }

  function Head(r: Content): string {
    StartLine(r) + Lines(PrintedHeaders(r)) + [CR, LF]
  }

  function Printed(r: Content): string {
    Head(r) + r.body
  }

  // ---- the pieces of the stream ----

  lemma StartLineText(r: Content)
    ensures MethodString(r.verb) + " " + r.path + (if r.query == [] then "" else "?") + r.query
            + (if r.fragment == [] then "" else "#") + r.fragment + " HTTP/" + Decimal(r.version / 16)
            + "." + Decimal(r.version % 16) + "\r\n"
         == StartLine(r)
  {
    hide MethodString, Decimal;
    var x, q, h := MethodString(r.verb) + " ", if r.query == [] then "" else "?", if r.fragment == [] then "" else "#";
    Regroup(x, r.path, q);
    Regroup(x, r.path + q, r.query);
    Regroup(x, r.path + q + r.query, h);
    Regroup(x, r.path + q + r.query + h, r.fragment);
  }

  lemma LineText(os: string, e: Entry)
    ensures os + e.key + ": " + e.value + "\r\n" == os + Line(e)
  {
  }

  lemma KeptMore(r: Content, es: seq<Entry>, i: nat)
    requires i < |es|
    ensures Kept(r, es[..i + 1]) == if Skipped(r, es[i]) then Kept(r, es[..i]) else Kept(r, es[..i]) + [es[i]]
  {
    hide Skipped;
    assert es[..i + 1][..i] == es[..i];
  }

  lemma LinesMore(top: seq<Entry>, kept: seq<Entry>, e: Entry)
    ensures Lines(top + (kept + [e])) == Lines(top + kept) + Line(e)
  {
    hide Line;
    assert top + (kept + [e]) == top + kept + [e];
    LinesConcat(top + kept, [e]);
    LinesOne(e);
  }

  lemma OwnText(os: string, r: Content)
    ensures r.websocket || os + "connection: " + (if r.close then "close" else "keep-alive") + "\r\n" == os + Lines(OwnConnection(r))
    ensures r.websocket ==> OwnConnection(r) == []
  {
    hide Line;
    if !r.websocket {
      var e := OwnConnection(r)[0];
      LinesOne(e);
      LineText(os, e);
      assert "connection: " == "connection" + ": ";
      Regroup(os, "connection", ": ");
    }
  }

  lemma EndText(os: string, r: Content)
    ensures os + Lines(OwnConnection(r) + Kept(r, r.headers))
            + (if r.body == [] then "\r\n" else "content-length: " + Decimal(|r.body|) + "\r\n\r\n" + r.body)
         == os + Lines(PrintedHeaders(r)) + [CR, LF] + r.body
  {
    hide Decimal, Kept, OwnConnection;
    var top := OwnConnection(r) + Kept(r, r.headers);
    LinesConcat(top, OwnLength(r));
    if r.body == [] {
      assert top + [] == top;
    } else {
      LinesOne(OwnLength(r)[0]);
      assert "content-length: " + Decimal(|r.body|) + "\r\n\r\n" + r.body == Line(OwnLength(r)[0]) + [CR, LF] + r.body;
    }
  }

  class HttpRequest {
    var verb: Method
    var version: nat
    var close: bool
    var websocket: bool
    var path: string
    var query: string
    var fragment: string
    var headers: seq<Entry>
    var body: string

    constructor ()
      ensures Contents() == Content(GET, 0x11, true, false, "/", [], [], [], [])
    {
      verb, version, close, websocket := GET, 0x11, true, false;
      path, query, fragment, headers, body := "/", [], [], [], [];
    }

    function Contents(): Content
      reads this
    {
      Content(verb, version, close, websocket, path, query, fragment, headers, body)
    }

    /** dump, into an empty stream. */
    method Dump() returns (os: string)
      ensures os == Printed(Contents())
    {
      hide Line, Lines, Kept, Decimal, MethodString, OwnConnection, PrintedHeaders, Target, StartLine;
      StartLineText(Contents());
      os := MethodString(verb) + " " + path + (if query == [] then "" else "?") + query
            + (if fragment == [] then "" else "#") + fragment + " HTTP/" + Decimal(version / 16)
            + "." + Decimal(version % 16) + "\r\n";
      ghost var line := os;
      os := DumpHeaders(os);
      EndText(line, Contents());
      if body != [] {
        os := os + "content-length: " + Decimal(|body|) + "\r\n\r\n" + body;
      } else {
        os := os + "\r\n";
      }
    }

    /** The part of dump that prints the connection header and the header map. */
    method DumpHeaders(os0: string) returns (os: string)
      ensures os == os0 + Lines(OwnConnection(Contents()) + Kept(Contents(), headers))
    {
      hide Line, Lines, Kept, Decimal, Same, OwnConnection;
      ghost var r := Contents();
      ghost var top := OwnConnection(r);
      os := os0;
      OwnText(os, r);
      NothingYet(os, r, headers);
      if !websocket {
        os := os + "connection: " + (if close then "close" else "keep-alive") + "\r\n";
      }
      for i := 0 to |headers|
        invariant os == os0 + Lines(top + Kept(r, headers[..i]))
      {
        var e := headers[i];
        KeptMore(r, headers, i);
        if !websocket && Same(e.key, "connection") {
          continue;
        }
        if body != [] && Same(e.key, "content-length") {
          continue;
        }
        LineText(os, e);
        LinesMore(top, Kept(r, headers[..i]), e);
        Regroup(os0, Lines(top + Kept(r, headers[..i])), Line(e));
        os := os + e.key + ": " + e.value + "\r\n";
      }
      assert headers[..|headers|] == headers;
    }
  }

  lemma NothingYet(os: string, r: Content, es: seq<Entry>)
    ensures os + Lines(OwnConnection(r) + Kept(r, es[..0])) == os + Lines(OwnConnection(r))
    ensures os + Lines([]) == os
  {
    assert OwnConnection(r) + [] == OwnConnection(r);
  }

  // ---- the callbacks ----

  /** The part of an HttpRequestParser its callbacks change. `failed`: on_url has returned an error. */
  datatype Builder = Builder(req: Content, field: string, finished: bool, failed: bool)

  /** A URL component, or what the request held before. */
  function PartOr(url: string, fields: Spans, p: Part, other: string): string
    requires InOrder(fields, |url|)
  {
    if p in fields then assert Inside(fields[p], |url|); url[fields[p].off..fields[p].off + fields[p].len] else other
  }

  lemma AbsentPart(url: string, fields: Spans, p: Part, other: string)
    requires InOrder(fields, |url|)
    ensures p !in fields ==> PartOr(url, fields, p, other) == other
  {
  }

  lemma UrlFields(url: string)
    requires |url| <= 0xFFFF && SplitUrl(url, false).Some?
    ensures InOrder(SplitUrl(url, false).value.fields, |url|)
  {
    hide InOrder;
    SplitUrlSound(url, false);
  }

  /** on_request_url_cb. A URL of more than 65535 bytes is outside this model and counts as an error. */
  function OnUrl(b: Builder, url: string): Builder {
    if |url| > 0xFFFF || SplitUrl(url, false) == None then b.(failed := true)
    else
      UrlFields(url);
      var fields := SplitUrl(url, false).value.fields;
      b.(req := b.req.(path := PartOr(url, fields, Path, b.req.path), query := PartOr(url, fields, Query, b.req.query),
                       fragment := PartOr(url, fields, Fragment, b.req.fragment)))
  }

  function Called(b: Builder, e: Event): Builder {
    if b.failed then b
    else match e
      case Data(Url, url, _) => OnUrl(b, url)
      case Data(Field, name, _) => b.(field := name)
      case Data(Value, value, _) => b.(req := b.req.(headers := Emplace(b.req.headers, b.field, value, true)))
      case Data(Body, bytes, _) => b.(req := b.req.(body := b.req.body + bytes))
      case HeadersComplete(verb, major, minor, _, _) =>
        b.(req := b.req.(verb := verb, version := (major * 16 + minor) % 256))
      case MessageComplete => b.(finished := true)
      case _ => b
  }

  /** All callbacks of a call, in order, up to one that fails. */
  function AllCalled(b: Builder, es: seq<Event>): Builder {
    if es == [] then b else Called(AllCalled(b, es[..|es| - 1]), es[|es| - 1])
  }

  lemma {:induction false} AllCalledConcat(b: Builder, x: seq<Event>, y: seq<Event>)
    ensures AllCalled(b, x + y) == AllCalled(AllCalled(b, x), y)
    decreases |y|
  {
    if y == [] {
      assert x + y == x;
    } else {
      assert (x + y)[..|x + y| - 1] == x + y[..|y| - 1];
      AllCalledConcat(b, x, y[..|y| - 1]);
    }
  }

  lemma {:induction false} FailedStays(b: Builder, es: seq<Event>, i: nat)
    requires i <= |es| && AllCalled(b, es[..i]).failed
    ensures AllCalled(b, es) == AllCalled(b, es[..i])
    decreases |es| - i
  {
    if i < |es| {
      assert es[..i + 1][..i] == es[..i];
      FailedStays(b, es, i + 1);
    } else {
      assert es[..i] == es;
    }
  }

  datatype Error = NoError | UnknownError | ParseError(errno: Errno)

  class HttpRequestParser {
    const parser: HttpParser
    const data: HttpRequest
    var error: Error
    var finished: bool
    var field: string

    constructor ()
      ensures fresh(parser) && fresh(data) && Valid()
      ensures parser.errno == OK && parser.st == Init(ParserType.Request) && error == NoError
      ensures Built() == NewBuilder()
    {
      parser := new HttpParser(ParserType.Request);
      data := new HttpRequest();
      error, finished, field := NoError, false, [];
    }

    ghost predicate Valid()
      reads parser
    {
      parser.Valid()
    }

    function Built(): Builder
      reads this, data
    {
      Builder(data.Contents(), field, finished, false)
    }

    /** One callback; false when it returns an error. */
    method Call(e: Event) returns (ok: bool)
      modifies this`field, this`finished, data
      ensures ok <==> !Called(old(Built()), e).failed
      ensures Built() == Called(old(Built()), e).(failed := false)
    {
      ok := true;
      match e {
        case Data(Url, url, _) => ok := CallUrl(url);
        case Data(Field, name, _) => field := name;
        case Data(Value, value, _) => data.headers := Emplace(data.headers, field, value, true);
        case Data(Body, bytes, _) => data.body := data.body + bytes;
        case HeadersComplete(verb, major, minor, _, _) =>
          data.verb := verb;
          data.version := (major * 16 + minor) % 256;
        case MessageComplete => finished := true;
        case _ =>
      }
    }

    method CallUrl(url: string) returns (ok: bool)
      modifies data
      ensures ok <==> !OnUrl(old(Built()), url).failed
      ensures Built() == OnUrl(old(Built()), url).(failed := false)
    {
      hide SplitUrl, InOrder, PartOr;
      if |url| > 0xFFFF {
        return false;
      }
      var u := new ParsedUrl();
      var code := u.Parse(url, false);
      if code != 0 {
        return false;
      }
      UrlFields(url);
      assert u.fields == SplitUrl(url, false).value.fields;
      ghost var r := data.Contents();
      if Path in u.fields {
        data.path := PartOr(url, u.fields, Path, data.path);
      }
      if Query in u.fields {
        data.query := PartOr(url, u.fields, Query, data.query);
      }
      if Fragment in u.fields {
        data.fragment := PartOr(url, u.fields, Fragment, data.fragment);
      }
      assert data.path == PartOr(url, u.fields, Path, r.path) by {
        AbsentPart(url, u.fields, Path, r.path);
      }
      assert data.query == PartOr(url, u.fields, Query, r.query) by {
        AbsentPart(url, u.fields, Query, r.query);
      }
      assert data.fragment == PartOr(url, u.fields, Fragment, r.fragment) by {
        AbsentPart(url, u.fields, Fragment, r.fragment);
      }
      ok := true;
    }

    /** execute: parses the first `len` bytes of the buffer and moves the bytes not read to its front.
        When on_url fails the parser stops at that callback; how many bytes it has read by then, and the rest of its
        state, are not part of this model. */
    method Execute(buf: array<char>, len: nat) returns (n: nat, ghost fired: seq<Event>)
      requires Valid() && len <= buf.Length && len <= MAX_BUFFER
      modifies this, parser, data, buf
      ensures Valid() && Built() == AllCalled(old(Built()), fired).(failed := false)
      ensures old(parser.errno) != OK ==> n == 0 && fired == [] && parser.st == old(parser.st) && parser.errno == old(parser.errno)
      ensures old(parser.errno) == OK && len > 0 ==>
                exists s, e, k :: CallResult(Settings(0), old(parser.st), old(buf[..len]), s, e, k, fired)
      ensures var failed := AllCalled(old(Built()), fired).failed;
              && (failed ==> parser.errno == CbUrl
                             && parser.st.upgrade == UpgradeAt(old(Built()), old(parser.st.upgrade), fired))
              && (!failed && old(parser.errno) == OK && len > 0 ==>
                    CallResult(Settings(0), old(parser.st), old(buf[..len]), parser.st, parser.errno, n, fired))
              && (!failed && old(parser.errno) == OK && len == 0 ==>
                    AtEof(old(parser.st), parser.errno, n, fired) && parser.st == old(parser.st))
      ensures error == (if parser.st.upgrade then UnknownError
                        else if parser.errno != OK then ParseError(parser.errno) else old(error))
      ensures if !parser.st.upgrade && parser.errno == OK && n < len
              then buf[..len - n] == old(buf[n..len]) && buf[len - n..] == old(buf[len - n..])
              else buf[..] == old(buf[..])
    {
      hide CallResult, AtEof, Called, Inv;
      ghost var b0, before := Built(), parser.st.upgrade;
      var upgrade, events := parser.st.upgrade, [];
      n, events := parser.Execute(Settings(0), buf[..len]);
      fired := events;
      assert old(parser.errno) == OK && len > 0 ==>
          CallResult(Settings(0), old(parser.st), old(buf[..len]), parser.st, parser.errno, n, fired);
      var ok, i := true, 0;
      while i < |events| && ok
        invariant i <= |events|
        invariant Built() == AllCalled(b0, events[..i]).(failed := false)
        invariant ok <==> !AllCalled(b0, events[..i]).failed
        invariant upgrade == UpgradeAt(b0, before, events[..i])
        modifies this`field, this`finished, data
      {
        assert events[..i + 1][..i] == events[..i];
        ok := Call(events[i]);
        if ok && events[i].HeadersComplete? {
          upgrade := events[i].upgrade;
        }
        i := i + 1;
      }
      assert events[..|events|] == events;
      if !ok {
        FailedStays(b0, events, i);
        UpgradeStays(b0, before, events, i);
        parser.errno := CbUrl;
        parser.st := parser.st.(upgrade := upgrade);
      }
      if parser.st.upgrade {
        error := UnknownError;
      } else if parser.errno != OK {
        error := ParseError(parser.errno);
      } else if n < len {
        forall j | 0 <= j < len - n {
          buf[j] := buf[j + n];
        }
      }
    }
  }

  /** The parser's `upgrade` field after these callbacks, up to one that fails: the field is set just before
      on_headers_complete, and `before` if there was none. */
  function UpgradeAt(b: Builder, before: bool, es: seq<Event>): bool {
    if es == [] then before
    else
      var init, e := es[..|es| - 1], es[|es| - 1];
      if !AllCalled(b, es).failed && e.HeadersComplete? then e.upgrade else UpgradeAt(b, before, init)
  }

  lemma {:induction false} UpgradeStays(b: Builder, before: bool, es: seq<Event>, i: nat)
    requires i <= |es| && AllCalled(b, es[..i]).failed
    ensures UpgradeAt(b, before, es) == UpgradeAt(b, before, es[..i])
    decreases |es|
  {
    if i == |es| {
      assert es[..i] == es;
    } else {
      var init := es[..|es| - 1];
      assert init[..i] == es[..i];
      FailedStays(b, es, i);
      UpgradeStays(b, before, init, i);
    }
  }

  function NewBuilder(): Builder {
    Builder(Content(GET, 0x11, true, false, "/", [], [], [], []), [], false, false)
  }
}
