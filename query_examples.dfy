/** Worked instances of the canonical query, over plain strings: strings
    made only of characters `quote` leaves as they are. */
module QueryExamples {
  import opened Dicts
  import opened Text
  import opened Utf8
  import opened PercentEncoding
  import opened StringOrder
  import opened QueryNormalizer

  /** Letters, digits and `-_.~` only. */
  predicate Plain(s: string) {
    forall i :: 0 <= i < |s| ==> s[i] as int < 0x80 && Unreserved(s[i] as int)
  }

  lemma QuoteSpace()
    ensures Quote(" ") == "%20"
  {
    assert Utf8.Encode(" ") == [0x20];
    assert QuoteBytes([0x20]) == QuoteByte(0x20) + QuoteBytes([]);
  }

  lemma SingleScalar(k: string, v: string)
    ensures CanonicalQuery([(k, Scalar(v))]) == Quote(k) + "=" + Quote(v)
  {
    var d: Dict<QueryValue> := [(k, Scalar(v))];
    assert Keys(d) == [k];
    assert Sort([k]) == Insert(k, []);
    assert Pairs(d) == PairsFor(d, [k]);
    assert PairsFor(d, [k]) == [] + KeyPairs(k, [v]);
    assert Fields(Pairs(d)) == [Field((k, v))];
  }

  lemma QuoteInnerSpace(a: string, b: string)
    requires Plain(a) && Plain(b)
    ensures Quote(a + " " + b) == a + "%20" + b
  {
    QuoteUnreserved(a);
    QuoteUnreserved(b);
    QuoteSpace();
    QuoteAppend(a + " ", b);
    QuoteAppend(a, " ");
  }

  /** A space is sent as `%20`, never as `+`. */
  lemma SpaceIsPercent20(k: string, a: string, b: string)
    requires Plain(k) && Plain(a) && Plain(b)
    ensures CanonicalQuery([(k, Scalar(a + " " + b))]) == k + "=" + a + "%20" + b
  {
    SingleScalar(k, a + " " + b);
    QuoteUnreserved(k);
    QuoteInnerSpace(a, b);
  }

  lemma SingleList(k: string, vs: seq<string>)
    ensures CanonicalQuery([(k, List(vs))]) == Join("&", Fields(KeyPairs(k, vs)))
  {
    var d: Dict<QueryValue> := [(k, List(vs))];
    assert Keys(d) == [k];
    assert Sort([k]) == Insert(k, []);
    assert ValuesAt(d, k) == vs;
    assert [k][..0] == [];
    assert Pairs(d) == PairsFor(d, [k]) == [] + KeyPairs(k, vs);
    assert Pairs(d) == KeyPairs(k, vs);
  }

  lemma TwoFields(k: string, first: string, second: string)
    requires Plain(k) && Plain(first) && Plain(second)
    ensures Fields(KeyPairs(k, [first, second])) == [k + "=" + first, k + "=" + second]
  {
    QuoteUnreserved(k);
    QuoteUnreserved(first);
    QuoteUnreserved(second);
  }

  /** A list value gives its pairs in list order, whatever the order of its
      elements. */
  lemma ListKeepsOrder(k: string, first: string, second: string)
    requires Plain(k) && Plain(first) && Plain(second)
    ensures CanonicalQuery([(k, List([first, second]))]) == k + "=" + first + "&" + k + "=" + second
  {
    SingleList(k, [first, second]);
    TwoFields(k, first, second);
    var fs := [k + "=" + first, k + "=" + second];
    assert Join("&", fs) == Join("&", fs[..1]) + "&" + fs[1];
  }
}
