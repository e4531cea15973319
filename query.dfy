/** `norm_query`: the canonical query string. Keys in ascending order, one
    `key=value` pair per value (a list value gives one pair per element, in
    list order), every key and value percent-encoded, pairs joined by `&`. */
module QueryNormalizer {
  import opened Wrappers
  import opened Dicts
  import opened Text
  import opened StringOrder
  import opened PercentEncoding

  /** A query value: a `str`, or a `list` of `str`. */
  datatype QueryValue = Scalar(text: string) | List(items: seq<string>)

  /** The values one key contributes, in order. */
  function Values(v: QueryValue): seq<string> {
    match v
    case Scalar(t) => [t]
    case List(items) => items
  }

  /** The values of key `k` in `d`, none when `k` is absent. */
  function ValuesAt(d: Dict<QueryValue>, k: string): seq<string> {
    match Get(d, k)
    case Some(v) => Values(v)
    case None => []
  }

  /** `sorted(params.keys())`. */
  function SortedKeys(d: Dict<QueryValue>): (ks: seq<string>)
    ensures Ascending(ks)
    ensures forall k :: k in ks <==> k in Keys(d)
  {
    var ks := Sort(Keys(d));
    assert Distinct(Keys(d));
    DistinctByMultiset(Keys(d), ks);
    SortedDistinctAscending(ks);
    assert forall k :: k in ks <==> k in multiset(Keys(d));
    ks
  }

  /** One `(k, v)` pair per value. */
  function KeyPairs(k: string, vs: seq<string>): (ps: seq<(string, string)>)
    ensures |ps| == |vs|
    ensures forall i :: 0 <= i < |vs| ==> ps[i] == (k, vs[i])
  {
    seq(|vs|, i requires 0 <= i < |vs| => (k, vs[i]))
  }

  /** The pairs emitted for the keys `ks`, taken in that order. */
  function PairsFor(d: Dict<QueryValue>, ks: seq<string>): seq<(string, string)> {
    if ks == [] then []
    else PairsFor(d, ks[..|ks| - 1]) + KeyPairs(ks[|ks| - 1], ValuesAt(d, ks[|ks| - 1]))
  }

  /** The (key, value) pairs of the canonical query, in emission order. */
  function Pairs(d: Dict<QueryValue>): seq<(string, string)> {
    PairsFor(d, SortedKeys(d))
  }

  /** `quote(key) + "=" + quote(value)`. */
  function Field(p: (string, string)): string {
    Quote(p.0) + "=" + Quote(p.1)
  }

  function Fields(ps: seq<(string, string)>): (fs: seq<string>)
    ensures |fs| == |ps|
    ensures forall i :: 0 <= i < |ps| ==> fs[i] == Field(ps[i])
  {
    seq(|ps|, i requires 0 <= i < |ps| => Field(ps[i]))
  }

  /** The canonical query: the encoded pairs joined by `&`. */
  function CanonicalQuery(d: Dict<QueryValue>): string {
    Join("&", Fields(Pairs(d)))
  }

  /** Each field followed by `&`: what the loop of `norm_query` has built. */
  function Terminated(fs: seq<string>): string {
    if fs == [] then "" else Terminated(fs[..|fs| - 1]) + fs[|fs| - 1] + "&"
  }

  lemma {:induction false} TerminatedJoin(fs: seq<string>)
    requires fs != []
    ensures Terminated(fs) == Join("&", fs) + "&"
  {
    if |fs| > 1 {
      TerminatedJoin(fs[..|fs| - 1]);
    }
  }

  lemma TerminatedStep(ps: seq<(string, string)>, p: (string, string))
    ensures Terminated(Fields(ps + [p])) == Terminated(Fields(ps)) + Quote(p.0) + "=" + Quote(p.1) + "&"
  {
    FieldsSnoc(ps, p);
    assert (Fields(ps) + [Field(p)])[..|ps|] == Fields(ps);
  }

  lemma InnerStep(done: seq<(string, string)>, key: string, items: seq<string>, j: nat)
    requires j < |items|
    ensures Terminated(Fields(done + KeyPairs(key, items[..j + 1]))) ==
            Terminated(Fields(done + KeyPairs(key, items[..j]))) + Quote(key) + "=" + Quote(items[j]) + "&"
  {
    assert KeyPairs(key, items[..j + 1]) == KeyPairs(key, items[..j]) + [(key, items[j])];
    assert done + KeyPairs(key, items[..j + 1]) == (done + KeyPairs(key, items[..j])) + [(key, items[j])];
    TerminatedStep(done + KeyPairs(key, items[..j]), (key, items[j]));
  }

  lemma OuterStep(d: Dict<QueryValue>, keys: seq<string>, i: nat)
    requires i < |keys|
    ensures PairsFor(d, keys[..i + 1]) == PairsFor(d, keys[..i]) + KeyPairs(keys[i], ValuesAt(d, keys[i]))
  {
    assert keys[..i + 1][..i] == keys[..i];
  }

  /** Dropping the final `&` leaves the join, and replacing `+` changes nothing. */
  lemma Finish(d: Dict<QueryValue>, query: string)
    requires query == Terminated(Fields(Pairs(d)))
    ensures ReplaceChar(if |query| == 0 then query else query[..|query| - 1], '+', "%20") == CanonicalQuery(d)
  {
    if Fields(Pairs(d)) != [] {
      TerminatedJoin(Fields(Pairs(d)));
      assert query[..|query| - 1] == CanonicalQuery(d);
    }
    NoPlus(d);
  }

  /** The body of the outer loop of `norm_query` for one key: a list value
      appends one pair per element, in list order, any other value one pair. */
  method AppendPairs(query: string, ghost done: seq<(string, string)>, key: string, value: QueryValue)
    returns (r: string)
    requires query == Terminated(Fields(done))
    ensures r == Terminated(Fields(done + KeyPairs(key, Values(value))))
  {
    r := query;
    match value {
      case List(items) =>
        assert done + KeyPairs(key, items[..0]) == done;
        for j := 0 to |items|
          invariant r == Terminated(Fields(done + KeyPairs(key, items[..j])))
        {
          InnerStep(done, key, items, j);
          r := r + Quote(key) + "=" + Quote(items[j]) + "&";
        }
        assert items[..|items|] == items;
      case Scalar(text) =>
        TerminatedStep(done, (key, text));
        assert KeyPairs(key, [text]) == [(key, text)];
        r := r + Quote(key) + "=" + Quote(text) + "&";
    }
  }

  /** `norm_query(params)`: the loop of the source over the sorted keys,
      then dropping the last character and replacing `+` by `%20`. */
  method NormQuery(params: Dict<QueryValue>) returns (q: string)
    ensures q == CanonicalQuery(params)
  {
    var keys := SortedKeys(params);
    var query := "";
    for i := 0 to |keys|
      invariant query == Terminated(Fields(PairsFor(params, keys[..i])))
    {
      var key := keys[i];
      OuterStep(params, keys, i);
      query := AppendPairs(query, PairsFor(params, keys[..i]), key, Get(params, key).value);
    }
    assert keys[..|keys|] == keys;
    Finish(params, query);
    query := if |query| == 0 then query else query[..|query| - 1];
    q := ReplaceChar(query, '+', "%20");
  }

  /** No field holds `+`, space, `&` or a line break, and every field holds `=`. */
  lemma FieldChars(p: (string, string))
    ensures '+' !in Field(p) && ' ' !in Field(p) && '&' !in Field(p) && '\n' !in Field(p)
    ensures Field(p)[|Quote(p.0)|] == '='
  {
    QuoteAlphabet(p.0);
    QuoteAlphabet(p.1);
  }

  lemma NoPlus(d: Dict<QueryValue>)
    ensures '+' !in CanonicalQuery(d)
  {
    forall i | 0 <= i < |Pairs(d)| ensures '+' !in Fields(Pairs(d))[i] {
      FieldChars(Pairs(d)[i]);
    }
    JoinAvoids("&", Fields(Pairs(d)), '+');
  }

  /** The values paired with key `k` in `ps`, in order. */
  function ValuesOf(ps: seq<(string, string)>, k: string): seq<string> {
    if ps == [] then []
    else ValuesOf(ps[..|ps| - 1], k) + (if ps[|ps| - 1].0 == k then [ps[|ps| - 1].1] else [])
  }

  lemma {:induction false} ValuesOfAppend(a: seq<(string, string)>, b: seq<(string, string)>, k: string)
    ensures ValuesOf(a + b, k) == ValuesOf(a, k) + ValuesOf(b, k)
  {
    if b != [] {
      ValuesOfAppend(a, b[..|b| - 1], k);
      assert (a + b)[..|a + b| - 1] == a + b[..|b| - 1];
      assert (a + b)[|a + b| - 1] == b[|b| - 1];
      var tail := if b[|b| - 1].0 == k then [b[|b| - 1].1] else [];
      assert ValuesOf(a + b, k) == ValuesOf(a + b[..|b| - 1], k) + tail;
      assert ValuesOf(b, k) == ValuesOf(b[..|b| - 1], k) + tail;
    } else {
      assert a + b == a;
    }
  }

  lemma {:induction false} ValuesOfKeyPairs(key: string, vs: seq<string>, k: string)
    ensures ValuesOf(KeyPairs(key, vs), k) == if k == key then vs else []
  {
    if vs != [] {
      var init, last := vs[..|vs| - 1], vs[|vs| - 1];
      ValuesOfKeyPairs(key, init, k);
      var ps := KeyPairs(key, vs);
      assert ps[..|ps| - 1] == KeyPairs(key, init);
      assert ps[|ps| - 1] == (key, last);
      assert init + [last] == vs;
    }
  }

  lemma {:induction false} ValuesOfPairsFor(d: Dict<QueryValue>, ks: seq<string>, k: string)
    requires Distinct(ks)
    ensures ValuesOf(PairsFor(d, ks), k) == if k in ks then ValuesAt(d, k) else []
  {
    if ks != [] {
      var init, last := ks[..|ks| - 1], ks[|ks| - 1];
      ValuesOfPairsFor(d, init, k);
      ValuesOfAppend(PairsFor(d, init), KeyPairs(last, ValuesAt(d, last)), k);
      ValuesOfKeyPairs(last, ValuesAt(d, last), k);
      assert k in ks <==> k in init || k == last;
      assert last !in init;
    }
  }

  /** Per key, the query holds exactly the key's values in their own order:
      a list value gives one pair per element, not re-sorted, a `str` value
      exactly one pair, and an absent key none. */
  lemma PairsValues(d: Dict<QueryValue>, k: string)
    ensures ValuesOf(Pairs(d), k) == ValuesAt(d, k)
    ensures Get(d, k).Some? && Get(d, k).value.Scalar? ==> ValuesOf(Pairs(d), k) == [Get(d, k).value.text]
    ensures Get(d, k).Some? && Get(d, k).value.List? ==> ValuesOf(Pairs(d), k) == Get(d, k).value.items
  {
    AscendingSortedDistinct(SortedKeys(d));
    ValuesOfPairsFor(d, SortedKeys(d), k);
  }

  lemma {:induction false} PairsForKeysIn(d: Dict<QueryValue>, ks: seq<string>)
    ensures forall i :: 0 <= i < |PairsFor(d, ks)| ==> PairsFor(d, ks)[i].0 in ks
  {
    if ks != [] {
      PairsForKeysIn(d, ks[..|ks| - 1]);
    }
  }

  lemma {:induction false} PairsForSorted(d: Dict<QueryValue>, ks: seq<string>)
    requires Sorted(ks)
    ensures forall i, j :: 0 <= i < j < |PairsFor(d, ks)| ==> AtMost(PairsFor(d, ks)[i].0, PairsFor(d, ks)[j].0)
  {
    if ks != [] {
      var init, last := ks[..|ks| - 1], ks[|ks| - 1];
      PairsForSorted(d, init);
      PairsForKeysIn(d, init);
      var a, b := PairsFor(d, init), KeyPairs(last, ValuesAt(d, last));
      var p := PairsFor(d, ks);
      assert p == a + b;
      BelowIrreflexive(last);
      forall i, j | 0 <= i < j < |p| ensures AtMost(p[i].0, p[j].0) {
        if j >= |a| {
          assert p[j].0 == last;
          if i < |a| {
            var m :| 0 <= m < |init| && init[m] == a[i].0;
            assert AtMost(ks[m], ks[|ks| - 1]);
          }
        }
      }
    }
  }

  /** Keys are emitted in ascending order: the sorted keys are strictly
      increasing, and along the pairs the keys never decrease. */
  lemma PairsKeysInOrder(d: Dict<QueryValue>)
    ensures forall i, j :: 0 <= i < j < |SortedKeys(d)| ==> Below(SortedKeys(d)[i], SortedKeys(d)[j])
    ensures forall i, j :: 0 <= i < j < |Pairs(d)| ==> AtMost(Pairs(d)[i].0, Pairs(d)[j].0)
  {
    AscendingSortedDistinct(SortedKeys(d));
    PairsForSorted(d, SortedKeys(d));
  }

  /** A pair's value is among the values of its key. */
  lemma {:induction false} ValuesOfHolds(ps: seq<(string, string)>, i: nat)
    requires i < |ps|
    ensures ps[i].1 in ValuesOf(ps, ps[i].0)
  {
    if i < |ps| - 1 {
      ValuesOfHolds(ps[..|ps| - 1], i);
    }
  }

  /** The query is empty exactly when the mapping is empty or each of its
      values is an empty list. */
  lemma CanonicalQueryEmpty(d: Dict<QueryValue>)
    ensures CanonicalQuery(d) == "" <==> forall k :: k in Keys(d) ==> Get(d, k) == Some(List([]))
  {
    var fs := Fields(Pairs(d));
    forall i | 0 <= i < |fs| ensures fs[i] != "" {
      FieldChars(Pairs(d)[i]);
    }
    JoinEnd("&", fs);
    PairsEmpty(d);
  }

  lemma PairsEmpty(d: Dict<QueryValue>)
    ensures Pairs(d) == [] <==> forall k :: k in Keys(d) ==> Get(d, k) == Some(List([]))
  {
    if Pairs(d) == [] {
      NoPairsOnlyEmptyLists(d);
    } else {
      SomePairNonEmpty(d);
    }
  }

  lemma NoPairsOnlyEmptyLists(d: Dict<QueryValue>)
    requires Pairs(d) == []
    ensures forall k :: k in Keys(d) ==> Get(d, k) == Some(List([]))
  {
    forall k | k in Keys(d) ensures Get(d, k) == Some(List([])) {
      PairsValues(d, k);
    }
  }

  lemma SomePairNonEmpty(d: Dict<QueryValue>)
    requires Pairs(d) != []
    ensures Pairs(d)[0].0 in Keys(d) && Get(d, Pairs(d)[0].0) != Some(List([]))
  {
    var p := Pairs(d)[0];
    ValuesOfHolds(Pairs(d), 0);
    PairsValues(d, p.0);
  }

  /** The query never holds a literal `+`, a space or a line break, and never ends with `&`. */
  lemma CanonicalQueryChars(d: Dict<QueryValue>)
    ensures '+' !in CanonicalQuery(d) && ' ' !in CanonicalQuery(d) && '\n' !in CanonicalQuery(d)
    ensures CanonicalQuery(d) != "" ==> CanonicalQuery(d)[|CanonicalQuery(d)| - 1] != '&'
  {
    var fs := Fields(Pairs(d));
    forall i | 0 <= i < |fs| ensures fs[i] != "" && ' ' !in fs[i] && '&' !in fs[i] && '\n' !in fs[i] {
      FieldChars(Pairs(d)[i]);
    }
    JoinAvoids("&", fs, ' ');
    JoinAvoids("&", fs, '\n');
    NoPlus(d);
    JoinEnd("&", fs);
    if fs != [] {
      var last := fs[|fs| - 1];
      assert last[|last| - 1] in last;
    }
  }

  /** Reads one `key=value` field back. */
  function ParseField(f: string): Option<(string, string)> {
    var parts := Split(f, '=');
    if |parts| != 2 then None
    else match (Unquote(parts[0]), Unquote(parts[1]))
      case (Some(k), Some(v)) => Some((k, v))
      case _ => None
  }

  function ParseFields(fs: seq<string>): Option<seq<(string, string)>> {
    if fs == [] then Some([])
    else match (ParseFields(fs[..|fs| - 1]), ParseField(fs[|fs| - 1]))
      case (Some(ps), Some(p)) => Some(ps + [p])
      case _ => None
  }

  /** Reads a query string back into its (key, value) pairs. */
  function ParseQuery(q: string): Option<seq<(string, string)>> {
    if q == "" then Some([]) else ParseFields(Split(q, '&'))
  }

  lemma ParseFieldField(p: (string, string))
    ensures ParseField(Field(p)) == Some(p)
  {
    QuoteAlphabet(p.0);
    QuoteAlphabet(p.1);
    assert Join("=", [Quote(p.0), Quote(p.1)]) == Field(p);
    SplitJoin([Quote(p.0), Quote(p.1)], '=');
    UnquoteQuote(p.0);
    UnquoteQuote(p.1);
  }

  lemma {:induction false} ParseFieldsFields(ps: seq<(string, string)>)
    ensures ParseFields(Fields(ps)) == Some(ps)
  {
    if ps != [] {
      var init, last := ps[..|ps| - 1], ps[|ps| - 1];
      ParseFieldsFields(init);
      ParseFieldField(last);
      FieldsSnoc(init, last);
      ParseFieldsSnoc(Fields(init), Field(last), init, last);
      assert init + [last] == ps;
    }
  }

  lemma FieldsSnoc(ps: seq<(string, string)>, p: (string, string))
    ensures Fields(ps + [p]) == Fields(ps) + [Field(p)]
  {
  }

  lemma ParseFieldsSnoc(fs: seq<string>, f: string, ps: seq<(string, string)>, p: (string, string))
    requires ParseFields(fs) == Some(ps) && ParseField(f) == Some(p)
    ensures ParseFields(fs + [f]) == Some(ps + [p])
  {
    assert (fs + [f])[..|fs|] == fs;
  }

  /** The canonical query is unambiguous: splitting it at `&` and `=` and
      decoding each piece gives back exactly the emitted pairs. */
  lemma ParseCanonicalQuery(d: Dict<QueryValue>)
    ensures ParseQuery(CanonicalQuery(d)) == Some(Pairs(d))
  {
    var fs := Fields(Pairs(d));
    forall i | 0 <= i < |fs| ensures fs[i] != "" && '&' !in fs[i] {
      FieldChars(Pairs(d)[i]);
    }
    JoinEnd("&", fs);
    if fs != [] {
      SplitJoin(fs, '&');
    }
    ParseFieldsFields(Pairs(d));
  }

  lemma {:induction false} PairsForSameEntries(d1: Dict<QueryValue>, d2: Dict<QueryValue>, ks: seq<string>)
    requires forall k :: Get(d1, k) == Get(d2, k)
    ensures PairsFor(d1, ks) == PairsFor(d2, ks)
  {
    if ks != [] {
      PairsForSameEntries(d1, d2, ks[..|ks| - 1]);
    }
  }

  /** Two mappings with the same entries, whatever the order in which their
      keys were inserted, give the same query. */
  lemma CanonicalQueryOrderIndependent(d1: Dict<QueryValue>, d2: Dict<QueryValue>)
    requires forall k :: Get(d1, k) == Get(d2, k)
    ensures Pairs(d1) == Pairs(d2) && CanonicalQuery(d1) == CanonicalQuery(d2)
  {
    assert Distinct(Keys(d1)) && Distinct(Keys(d2));
    assert forall k :: k in Keys(d1) <==> k in Keys(d2) by {
      forall k ensures k in Keys(d1) <==> k in Keys(d2) {
        assert Get(d1, k) == Get(d2, k);
      }
    }
    DistinctSameElements(Keys(d1), Keys(d2));
    SortedUnique(Sort(Keys(d1)), Sort(Keys(d2)));
    PairsForSameEntries(d1, d2, SortedKeys(d1));
  }
}
