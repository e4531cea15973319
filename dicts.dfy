/** Python `dict` with `str` keys, as the signer uses it: an insertion-ordered
    sequence of entries whose keys are pairwise distinct. */
module Dicts {
  import opened Wrappers

  /** No key occurs twice. */
  predicate DistinctKeys<V>(entries: seq<(string, V)>) {
    forall i, j :: 0 <= i < j < |entries| ==> entries[i].0 != entries[j].0
  }

  type Dict<V> = entries: seq<(string, V)> | DistinctKeys(entries) witness []

  /** `list(d.keys())`: the keys in insertion order. */
  function Keys<V>(d: seq<(string, V)>): (ks: seq<string>)
    ensures |ks| == |d|
    ensures forall i :: 0 <= i < |d| ==> ks[i] == d[i].0
  {
    seq(|d|, i requires 0 <= i < |d| => d[i].0)
  }

  /** The position of `k` in a sequence that holds it. */
  function IndexOf(ks: seq<string>, k: string): (i: nat)
    requires k in ks
    ensures i < |ks| && ks[i] == k
  {
    if ks[0] == k then 0 else 1 + IndexOf(ks[1..], k)
  }

  /** `d.get(k)`: the value stored under `k`, or `None` when `k` is absent. */
  function Get<V>(d: Dict<V>, k: string): (r: Option<V>)
    ensures forall i :: 0 <= i < |d| && d[i].0 == k ==> r == Some(d[i].1)
    ensures r.Some? <==> k in Keys(d)
  {
    if k in Keys(d) then Some(d[IndexOf(Keys(d), k)].1) else None
  }

  /** `d[k] = v`: an existing key keeps its position, a new key goes last. */
  function Put<V>(d: Dict<V>, k: string, v: V): (r: Dict<V>)
    ensures Get(r, k) == Some(v)
    ensures forall k' :: k' != k ==> Get(r, k') == Get(d, k')
    ensures Keys(r) == if k in Keys(d) then Keys(d) else Keys(d) + [k]
  {
    if k in Keys(d) then
      var i := IndexOf(Keys(d), k);
      var r := d[i := (k, v)];
      assert Keys(r) == Keys(d);
      r
    else
      var r := d + [(k, v)];
      assert Keys(r) == Keys(d) + [k];
      r
  }

  /** `{**a, **b}`: the entries of `a`, then those of `b`, a key of `b` replacing
      the value of the same key in `a` in place. */
  function Merge<V>(a: Dict<V>, b: Dict<V>): (r: Dict<V>)
    ensures forall k :: Get(r, k) == if Get(b, k).Some? then Get(b, k) else Get(a, k)
    ensures forall k :: k in Keys(r) <==> k in Keys(a) || k in Keys(b)
    ensures |a| <= |r| && Keys(r)[..|a|] == Keys(a)
    decreases |b|
  {
    if b == [] then a
    else
      var n := |b| - 1;
      var init: Dict<V> := b[..n];
      var m := Merge(a, init);
      MergeStep(a, b, m);
      Put(m, b[n].0, b[n].1)
  }

  /** One step of `Merge`: putting the last entry of `b` into the merge of
      `a` with the rest of `b`. */
  lemma MergeStep<V>(a: Dict<V>, b: Dict<V>, m: Dict<V>)
    requires b != []
    requires forall k :: Get(m, k) == if Get(b[..|b| - 1], k).Some? then Get(b[..|b| - 1], k) else Get(a, k)
    requires forall k :: k in Keys(m) <==> k in Keys(a) || k in Keys(b[..|b| - 1])
    requires |a| <= |m| && Keys(m)[..|a|] == Keys(a)
    ensures var r := Put(m, b[|b| - 1].0, b[|b| - 1].1);
      && (forall k :: Get(r, k) == if Get(b, k).Some? then Get(b, k) else Get(a, k))
      && (forall k :: k in Keys(r) <==> k in Keys(a) || k in Keys(b))
      && |a| <= |r| && Keys(r)[..|a|] == Keys(a)
  {
    var init: Dict<V> := b[..|b| - 1];
    var last := b[|b| - 1];
    var r := Put(m, last.0, last.1);
    forall k ensures Get(b, k) == if last.0 == k then Some(last.1) else Get(init, k) {
      if last.0 != k && Get(b, k).Some? {
        var i := IndexOf(Keys(b), k);
        assert init[i] == b[i];
      }
    }
    if last.0 !in Keys(m) {
      assert Keys(r)[..|a|] == (Keys(m) + [last.0])[..|a|];
    }
  }
}
