/** A request target printed from its components is split into the same components. */
module HttpTarget {
  import opened Wrappers
  import opened HttpChars
  import opened HttpTypes
  import opened HttpStep
  import opened HttpInvariant
  import opened HttpUrl
  import opened HttpRequests
  import opened HttpRequestLine

  predicate PathOk(path: string) {
    && path != [] && (path[0] == '/' || path[0] == '*')
    && forall i :: 1 <= i < |path| ==> IsUrlChar(path[i])
  }

  predicate QueryOk(query: string) {
    forall i :: 0 <= i < |query| ==> IsUrlChar(query[i]) || query[i] == '?'
  }

  /** A '#' in front would be dropped. */
  predicate FragmentOk(fragment: string) {
    && (fragment != [] ==> fragment[0] != '#')
    && forall i :: 0 <= i < |fragment| ==> IsUrlChar(fragment[i]) || fragment[i] == '?' || fragment[i] == '#'
  }

  lemma PathChars(ch: char)
    ensures ch == '/' || ch == '*' ==> UrlChar(ReqSpacesBeforeUrl, ch) == ReqPath
    ensures IsUrlChar(ch) ==> UrlChar(ReqPath, ch) == ReqPath
    ensures UrlChar(ReqPath, '?') == ReqQueryStringStart && UrlChar(ReqPath, '#') == ReqFragmentStart
  {
  }

  lemma QueryChars(ch: char)
    ensures IsUrlChar(ch) || ch == '?' ==>
              UrlChar(ReqQueryStringStart, ch) == ReqQueryString && UrlChar(ReqQueryString, ch) == ReqQueryString
    ensures UrlChar(ReqQueryString, '#') == ReqFragmentStart
  {
  }

  lemma FragmentChars(ch: char)
    ensures IsUrlChar(ch) || ch == '?' ==> UrlChar(ReqFragmentStart, ch) == ReqFragment
    ensures IsUrlChar(ch) || ch == '?' || ch == '#' ==> UrlChar(ReqFragment, ch) == ReqFragment
  {
  }

  lemma Parts()
    ensures PartOf(ReqPath) == Some(Path) && PartOf(ReqQueryString) == Some(Query) && PartOf(ReqFragment) == Some(Fragment)
    ensures PartOf(ReqQueryStringStart) == None && PartOf(ReqFragmentStart) == None
  {
  }

  /** The runs of the components in the target. */
  function TargetSpans(r: Content): Spans {
    var a, b := |r.path|, |r.path| + if r.query == [] then 0 else 1 + |r.query|;
    var m := map[Path := Span(0, a)];
    var m' := if r.query == [] then m else m[Query := Span(a + 1, |r.query|)];
    if r.fragment == [] then m' else m'[Fragment := Span(b + 1, |r.fragment|)]
  }

  lemma TargetAt(r: Content)
    ensures var a, b, t := |r.path|, |r.path| + (if r.query == [] then 0 else 1 + |r.query|), Target(r);
            && |t| == b + (if r.fragment == [] then 0 else 1 + |r.fragment|)
            && t[0..a] == r.path
            && (r.query != [] ==> t[a] == '?' && t[a + 1..b] == r.query)
            && (r.fragment != [] ==> t[b] == '#' && t[b + 1..] == r.fragment)
  {
  }

  lemma PathPass(r: Content)
    requires PathOk(r.path) && |Target(r)| <= 0xFFFF
    ensures PassOver(Target(r), false, |r.path|) == Pass(ReqPath, map[Path := Span(0, |r.path|)], Some(Path), false)
  {
    hide UrlChar, IsUrlChar, Target, PartOf;
    TargetAt(r);
    Parts();
    var t, a := Target(r), |r.path|;
    assert forall i :: 0 <= i < a ==> t[i] == t[0..a][i];
    PathChars(t[0]);
    forall i | 0 < i < a ensures UrlChar(ReqPath, t[i]) == ReqPath {
      PathChars(t[i]);
    }
    assert PassOver(t, false, 0) == PassStart(false);
    ComponentPass(t, false, 0, a, PassStart(false), ReqPath, Path);
  }

  lemma QueryPass(r: Content)
    requires PathOk(r.path) && QueryOk(r.query) && r.query != [] && |Target(r)| <= 0xFFFF
    ensures var a := |r.path|;
            PassOver(Target(r), false, a + 1 + |r.query|)
            == Pass(ReqQueryString, map[Path := Span(0, a), Query := Span(a + 1, |r.query|)], Some(Query), false)
  {
    hide UrlChar, IsUrlChar, Target, PartOf, PassOver;
    TargetAt(r);
    Parts();
    PathPass(r);
    var t, a := Target(r), |r.path|;
    var b := a + 1 + |r.query|;
    PathChars('?');
    DelimiterPass(t, false, a, PassOver(t, false, a), ReqQueryStringStart);
    assert forall i :: a < i < b ==> t[i] == t[a + 1..b][i - a - 1];
    forall i | a < i < b ensures UrlChar(ReqQueryStringStart, t[i]) == UrlChar(ReqQueryString, t[i]) == ReqQueryString {
      QueryChars(t[i]);
    }
    ComponentPass(t, false, a + 1, b, PassOver(t, false, a + 1), ReqQueryString, Query);
  }

  lemma FragmentPass(r: Content, b: nat, u: Pass)
    requires FragmentOk(r.fragment) && r.fragment != [] && |Target(r)| <= 0xFFFF
    requires b == |r.path| + (if r.query == [] then 0 else 1 + |r.query|) && PassOver(Target(r), false, b) == u
    requires (u.s == ReqPath || u.s == ReqQueryString) && Fragment !in u.fields && u.last != Some(Fragment)
    ensures PassOver(Target(r), false, |Target(r)|)
         == Pass(ReqFragment, u.fields[Fragment := Span(b + 1, |r.fragment|)], Some(Fragment), u.at)
  {
    hide UrlChar, IsUrlChar, Target, PartOf, PassOver;
    TargetAt(r);
    Parts();
    var t := Target(r);
    PathChars('#');
    QueryChars('#');
    DelimiterPass(t, false, b, u, ReqFragmentStart);
    assert forall i :: b < i < |t| ==> t[i] == t[b + 1..][i - b - 1];
    FragmentChars(t[b + 1]);
    forall i | b < i < |t| ensures UrlChar(ReqFragment, t[i]) == ReqFragment {
      FragmentChars(t[i]);
    }
    ComponentPass(t, false, b + 1, |t|, PassOver(t, false, b + 1), ReqFragment, Fragment);
  }

  lemma TargetPass(r: Content)
    requires PathOk(r.path) && QueryOk(r.query) && FragmentOk(r.fragment) && |Target(r)| <= 0xFFFF
    ensures var u := PassOver(Target(r), false, |Target(r)|);
            Endable(u.s) && u.fields == TargetSpans(r)
  {
    hide Target, PassOver, PathOk, QueryOk, FragmentOk;
    TargetAt(r);
    PathPass(r);
    if r.query != [] {
      QueryPass(r);
    }
    if r.fragment != [] {
      var b := |r.path| + if r.query == [] then 0 else 1 + |r.query|;
      FragmentPass(r, b, PassOver(Target(r), false, b));
    }
  }

  /** Splitting inverts printing: on_url finds path, query and fragment as they were. */
  lemma UrlComesBack(r: Content, b: Builder)
    requires PathOk(r.path) && QueryOk(r.query) && FragmentOk(r.fragment) && |Target(r)| <= 0xFFFF
    requires b.req.query == [] && b.req.fragment == []
    ensures OnUrl(b, Target(r)) == b.(req := b.req.(path := r.path, query := r.query, fragment := r.fragment))
  {
    hide Target, PassOver, SplitServer, InOrder, QueryOk, FragmentOk, IsUrlChar;
    var t := Target(r);
    TargetAt(r);
    TargetPass(r);
    assert SplitUrl(t, false) == Some(Split(TargetSpans(r), 0));
    UrlFields(t);
  }
}
