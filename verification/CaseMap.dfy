/** std::map<std::string, std::string, CaseInsensitiveLess>: entries in the order of strcasecmp on C strings. */
module CaseMap {
  import opened Wrappers

  datatype Entry = Entry(key: string, value: string)

  function ToLower(c: char): char {
    if 'A' <= c <= 'Z' then (c as int + 32) as char else c
  }

  /** What strcasecmp sees of a string: its bytes up to the first NUL, letters lowered. */
  function Fold(s: string): string {
    if s == [] || s[0] == '\0' then [] else [ToLower(s[0])] + Fold(s[1..])
  }

  /** The order of the folded strings, as unsigned bytes; the terminating NUL is below every byte. */
  predicate Below(a: string, b: string) {
    b != [] && (a == [] || a[0] < b[0] || (a[0] == b[0] && Below(a[1..], b[1..])))
  }

  /** CaseInsensitiveLess */
  predicate Less(a: string, b: string) {
    Below(Fold(a), Fold(b))
  }

  predicate Same(a: string, b: string) {
    Fold(a) == Fold(b)
  }

  predicate Sorted(es: seq<Entry>) {
    forall i, j :: 0 <= i < j < |es| ==> Less(es[i].key, es[j].key)
  }

  /** find: the entry whose key is the same without regard to case. */
  function Find(es: seq<Entry>, key: string): Option<Entry> {
    if es == [] then None
    else if Same(es[0].key, key) then Some(es[0])
    else Find(es[1..], key)
  }

  /** `m[key] = value` when `overwrite`, else `m.insert(key, value)`, which leaves an existing entry alone.
      An existing entry keeps the spelling of its key. */
  function Emplace(es: seq<Entry>, key: string, value: string, overwrite: bool): seq<Entry> {
    if es == [] then [Entry(key, value)]
    else if Less(es[0].key, key) then [es[0]] + Emplace(es[1..], key, value, overwrite)
    else if Less(key, es[0].key) then [Entry(key, value)] + es
    else if overwrite then [Entry(es[0].key, value)] + es[1..]
    else es
  }

  // ---- CaseInsensitiveLess is a strict total order on folded keys ----

  lemma {:induction false} BelowTotal(a: string, b: string)
    ensures Below(a, b) || Below(b, a) || a == b
    ensures !(Below(a, b) && Below(b, a))
    decreases |a| + |b|
  {
    if a == [] {
    } else {
      if b != [] {
        BelowTotal(a[1..], b[1..]);
        if a[0] == b[0] && a[1..] == b[1..] {
          assert a == [a[0]] + a[1..] == b;
        }
      }
    }
  }

  lemma {:induction false} BelowTransitive(a: string, b: string, c: string)
    requires Below(a, b) && Below(b, c)
    ensures Below(a, c)
    decreases |a|
  {
    if a != [] && a[0] == b[0] && b[0] == c[0] {
      BelowTransitive(a[1..], b[1..], c[1..]);
    }
  }

  lemma LessTotal(a: string, b: string)
    ensures Less(a, b) || Less(b, a) || Same(a, b)
    ensures !(Less(a, b) && Less(b, a)) && (Same(a, b) ==> !Less(a, b) && !Less(b, a))
  {
    BelowTotal(Fold(a), Fold(b));
  }

  lemma LessTransitive(a: string, b: string, c: string)
    requires Less(a, b) && Less(b, c)
    ensures Less(a, c)
  {
    BelowTransitive(Fold(a), Fold(b), Fold(c));
  }

  /** The order decides at the first difference. */
  lemma {:induction false} BelowIs(a: string, b: string)
    ensures Below(a, b) <==> exists n :: 0 <= n <= |a| && n < |b| && a[..n] == b[..n] && (n == |a| || a[n] < b[n])
    decreases |a|
  {
    if a != [] && b != [] && a[0] == b[0] {
      BelowIs(a[1..], b[1..]);
      if Below(a[1..], b[1..]) {
        var n :| 0 <= n <= |a[1..]| && n < |b[1..]| && a[1..][..n] == b[1..][..n] && (n == |a[1..]| || a[1..][n] < b[1..][n]);
        assert a[..n + 1] == [a[0]] + a[1..][..n] && b[..n + 1] == [b[0]] + b[1..][..n];
      }
      forall n | 0 <= n <= |a| && n < |b| && a[..n] == b[..n] && (n == |a| || a[n] < b[n]) ensures Below(a, b) {
        assert n > 0;
        assert a[1..][..n - 1] == a[..n][1..] && b[1..][..n - 1] == b[..n][1..];
      }
    } else if Below(a, b) {
      assert a[..0] == b[..0];
    } else if a != [] && b != [] {
      assert forall n :: 0 < n <= |a| && n < |b| ==> a[..n][0] == a[0] && b[..n][0] == b[0];
    }
  }

  // ---- the map laws ----

  /** Keys beyond the first one of a sorted list are not the first one. */
  lemma {:induction false} NotBeyond(es: seq<Entry>, key: string)
    requires Sorted(es) && es != [] && (Less(key, es[0].key) || Same(key, es[0].key))
    ensures Find(es[1..], key) == None
  {
    forall i | 1 <= i < |es| ensures !Same(es[i].key, key) {
      assert Less(es[0].key, es[i].key);
      LessTotal(es[i].key, key);
      if Less(key, es[0].key) {
        LessTransitive(key, es[0].key, es[i].key);
      }
    }
    NotAmong(es[1..], key);
  }

  lemma {:induction false} NotAmong(es: seq<Entry>, key: string)
    ensures (forall i :: 0 <= i < |es| ==> !Same(es[i].key, key)) <==> Find(es, key) == None
    ensures Find(es, key).Some? ==> Find(es, key).value in es && Same(Find(es, key).value.key, key)
  {
    if es == [] {
    } else {
      NotAmong(es[1..], key);
      if Find(es, key) == None {
        assert forall i :: 1 <= i < |es| ==> es[i] == es[1..][i - 1];
      } else if !Same(es[0].key, key) {
        var j :| 0 <= j < |es[1..]| && Same(es[1..][j].key, key);
        assert es[j + 1] == es[1..][j];
      }
    }
  }

  /** Every member of a sorted list is found under its key. */
  lemma {:induction false} FindMember(es: seq<Entry>, i: nat)
    requires Sorted(es) && i < |es|
    ensures Find(es, es[i].key) == Some(es[i])
  {
    if i == 0 {
    } else {
      LessTotal(es[0].key, es[i].key);
      assert es[1..][i - 1] == es[i];
      FindMember(es[1..], i - 1);
    }
  }

  /** One entry changes, under the key given; all other keys find what they found. */
  lemma {:induction false} EmplaceFind(es: seq<Entry>, key: string, value: string, overwrite: bool, k: string)
    requires Sorted(es)
    ensures Find(Emplace(es, key, value, overwrite), k)
         == if !Same(key, k) then Find(es, k)
            else match Find(es, key)
              case None => Some(Entry(key, value))
              case Some(e) => Some(if overwrite then Entry(e.key, value) else e)
  {
    if es == [] {
    } else {
      var es' := Emplace(es, key, value, overwrite);
      LessTotal(es[0].key, key);
      if Less(es[0].key, key) {
        EmplaceFind(es[1..], key, value, overwrite, k);
        assert es'[1..] == Emplace(es[1..], key, value, overwrite);
      } else if Less(key, es[0].key) {
        NotBeyond(es, key);
        assert es'[1..] == es;
      } else if overwrite {
        assert es'[1..] == es[1..];
      }
    }
  }

  lemma {:induction false} EmplaceSorted(es: seq<Entry>, key: string, value: string, overwrite: bool)
    requires Sorted(es)
    ensures var es' := Emplace(es, key, value, overwrite);
            && Sorted(es') && es' != []
            && (Same(es'[0].key, key) || (es != [] && Same(es'[0].key, es[0].key)))
  {
    if es == [] {
    } else {
      var es' := Emplace(es, key, value, overwrite);
      LessTotal(es[0].key, key);
      if Less(es[0].key, key) {
        EmplaceSorted(es[1..], key, value, overwrite);
        var rest := Emplace(es[1..], key, value, overwrite);
        assert es'[1..] == rest;
        assert Less(es[0].key, rest[0].key) by {
          if |es| > 1 {
            assert es[1..][0] == es[1];
          }
        }
        forall i, j | 0 <= i < j < |es'| ensures Less(es'[i].key, es'[j].key) {
          if i == 0 {
            if j > 1 {
              LessTransitive(es[0].key, rest[0].key, rest[j - 1].key);
            }
          } else {
            assert Less(rest[i - 1].key, rest[j - 1].key);
          }
        }
      } else if Less(key, es[0].key) {
        forall j | 1 <= j < |es'| ensures Less(key, es'[j].key) {
          if j > 1 {
            LessTransitive(key, es[0].key, es[j - 1].key);
          }
        }
      }
    }
  }
}
