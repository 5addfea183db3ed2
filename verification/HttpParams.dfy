/** The parameters of an HttpRequest: read from query and body when first asked for. */
module HttpParams {
  import opened Wrappers
  import opened CaseMap
  import opened UrlParams
  import opened HttpRequests

  const FORM := "application/x-www-form-urlencoded"

  predicate StandsAt(text: string, i: nat, w: string) {
    i + |w| <= |text| && text[i..i + |w|] == w
  }

  /** strcasestr: the text `w` stands somewhere in the C string, in any case. */
  predicate Names(s: string, w: string) {
    exists i: nat :: i <= |Fold(s)| && StandsAt(Fold(s), i, w)
  }

  method StrCaseStr(s: string, w: string) returns (found: bool)
    ensures found <==> Names(s, w)
  {
    var text := Fold(s);
    found := false;
    var i: nat := 0;
    while i + |w| <= |text|
      invariant forall k :: 0 <= k < i ==> !StandsAt(text, k, w)
    {
      if text[i..i + |w|] == w {
        assert StandsAt(text, i, w);
        return true;
      }
      i := i + 1;
    }
  }

  /** getHeader with its default. */
  function HeaderOr(headers: seq<Entry>, key: string, def: string): string {
    if Find(headers, key).Some? then Find(headers, key).value.value else def
  }

  /** The pairs a request gives, those of the query first; the body counts only if it says it is a form. */
  function Given(query: string, body: string, form: bool): seq<Entry> {
    Parse(query, '&', false) + if form then Parse(body, '&', false) else []
  }

  lemma {:induction false} FindConcat(a: seq<Entry>, b: seq<Entry>, k: string)
    ensures Find(a + b, k) == if Find(a, k).Some? then Find(a, k) else Find(b, k)
  {
    hide Same;
    if a == [] {
      assert a + b == b;
    } else {
      assert (a + b)[0] == a[0] && (a + b)[1..] == a[1..] + b;
      FindConcat(a[1..], b, k);
    }
  }

  /** In a map filled from the query and then from the body, a key has its first value in the query, and only
      failing that its first in the body; what was in the map before stays. */
  lemma QueryBeforeBody(m: seq<Entry>, query: string, body: string, k: string)
    requires Sorted(m)
    ensures var q := InsertAll(m, Parse(query, '&', false));
            var all := InsertAll(q, Parse(body, '&', false));
            && Sorted(q) && Sorted(all)
            && Find(q, k) == (if Find(m, k).Some? then Find(m, k) else Find(Given(query, body, false), k))
            && Find(all, k) == (if Find(m, k).Some? then Find(m, k) else Find(Given(query, body, true), k))
  {
    hide Parse, InsertAll, Find, Sorted;
    var q := Parse(query, '&', false);
    InsertAllFind(m, q, k);
    InsertAllFind(InsertAll(m, q), Parse(body, '&', false), k);
    FindConcat(q, [], k);
    assert q + [] == q;
    FindConcat(q, Parse(body, '&', false), k);
  }

  /** What the client has joined and encoded is what the server finds: in query and body together, the first
      value given for the key. */
  lemma FormComesBack(qs: seq<Entry>, bs: seq<Entry>, k: string)
    requires forall i :: 0 <= i < |qs| ==> Bytes(qs[i].value) && '=' !in qs[i].key
    requires forall i :: 0 <= i < |bs| ==> Bytes(bs[i].value) && '=' !in bs[i].key
    ensures Find(Given(Join(qs, '&', true), Join(bs, '&', true), true), k) == Find(qs + bs, k)
    ensures Find(Given(Join(qs, '&', true), Join(bs, '&', true), false), k) == Find(qs, k)
  {
    hide Parse, Join, Find;
    ParseInvertsJoin(qs, '&', false);
    ParseInvertsJoin(bs, '&', false);
    KeysUntrimmed(qs);
    KeysUntrimmed(bs);
    assert qs + [] == qs;
  }

  /** A request with its parameter cache. */
  class RequestParams {
    const request: HttpRequest
    var params: seq<Entry>
    var queryRead: bool  // the bits of parserParamFlag_
    var bodyRead: bool

    constructor (r: HttpRequest)
      ensures request == r && params == [] && !queryRead && !bodyRead
    {
      request, params, queryRead, bodyRead := r, [], false, false;
    }

    predicate IsForm()
      reads request
    {
      Names(HeaderOr(request.headers, "content-type", ""), FORM)
    }

    /** initQueryParam */
    method InitQueryParam()
      modifies this`params, this`queryRead
      ensures queryRead
      ensures params == if old(queryRead) then old(params) else InsertAll(old(params), Parse(request.query, '&', false))
    {
      hide InsertAll, Parse;
      if queryRead {
        return;
      }
      params := ParseParam(request.query, '&', false, params);
      queryRead := true;
    }

    /** initBodyParam */
    method InitBodyParam()
      modifies this`params, this`bodyRead
      ensures bodyRead
      ensures IsForm() <==> Names(HeaderOr(request.headers, "content-type", ""), "application/x-www-form-urlencoded")
      ensures params == if old(bodyRead) || !IsForm() then old(params)
                        else InsertAll(old(params), Parse(request.body, '&', false))
    {
      hide InsertAll, Parse, Names;
      if bodyRead {
        return;
      }
      var form := StrCaseStr(HeaderOr(request.headers, "content-type", ""), FORM);
      if !form {
        bodyRead := true;
        return;
      }
      params := ParseParam(request.body, '&', false, params);
      bodyRead := true;
    }

    /** getParam: what setParam or an earlier call has put into the cache counts first; on the first call query and
        body are read, on later ones they are not read again. */
    method GetParam(key: string, def: string) returns (value: string)
      requires Sorted(params)
      modifies this`params, this`queryRead, this`bodyRead
      ensures Sorted(params) && queryRead && bodyRead
      ensures old(queryRead) && old(bodyRead) ==> params == old(params)
      ensures value == HeaderOr(params, key, def)
      ensures !old(queryRead) && !old(bodyRead) ==>
                forall k :: Find(params, k) == if Find(old(params), k).Some? then Find(old(params), k)
                                               else Find(Given(request.query, request.body, IsForm()), k)
    {
      hide InsertAll, Parse, Given, Names, Find, Sorted;
      ghost var m := params;
      InitQueryParam();
      ghost var q := params;
      InitBodyParam();
      forall k
        ensures Sorted(params)
        ensures !old(queryRead) && !old(bodyRead) ==>
                  Find(params, k) == if Find(m, k).Some? then Find(m, k)
                                     else Find(Given(request.query, request.body, IsForm()), k)
      {
        QueryBeforeBody(m, request.query, request.body, k);
        InsertAllFind(m, Parse(request.body, '&', false), k);
      }
      value := HeaderOr(params, key, def);
    }

    /** setParam */
    method SetParam(key: string, val: string)
      requires Sorted(params)
      modifies this`params
      ensures Sorted(params)
      ensures forall k :: Same(key, k) ==> Find(params, k).Some? && Find(params, k).value.value == val
      ensures forall k :: !Same(key, k) ==> Find(params, k) == Find(old(params), k)
    {
      hide Emplace, Find, Sorted, Same;
      EmplaceSorted(params, key, val, true);
      forall k
        ensures Find(Emplace(params, key, val, true), k)
             == if !Same(key, k) then Find(params, k)
                else match Find(params, key)
                  case None => Some(Entry(key, val))
                  case Some(e) => Some(Entry(e.key, val))
      {
        EmplaceFind(params, key, val, true, k);
      }
      params := Emplace(params, key, val, true);
    }
  }
}
