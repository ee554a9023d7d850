/** PHP arrays keyed by string, as the expressions use them: entries keep
    their insertion order, and writing an existing key replaces its value
    where it stands. */
module OrderedMap {
  import opened Wrappers
  import opened Strings

  datatype Entry<V> = Entry(key: string, value: V)

  function Keys<V>(es: seq<Entry<V>>): (ks: seq<string>)
    ensures |ks| == |es|
    ensures forall i :: 0 <= i < |es| ==> ks[i] == es[i].key
  {
    seq(|es|, i requires 0 <= i < |es| => es[i].key)
  }

  function Values<V>(es: seq<Entry<V>>): (vs: seq<V>)
    ensures |vs| == |es|
    ensures forall i :: 0 <= i < |es| ==> vs[i] == es[i].value
  {
    seq(|es|, i requires 0 <= i < |es| => es[i].value)
  }

  /** No key is written twice, as in every PHP array. */
  predicate UniqueKeys<V>(es: seq<Entry<V>>) {
    forall i, j :: 0 <= i < j < |es| ==> es[i].key != es[j].key
  }

  predicate HasKey<V>(es: seq<Entry<V>>, k: string) {
    k in Keys(es)
  }

  /** `$array[$k]`, or `None` when `$k` is not a key. */
  function Get<V>(es: seq<Entry<V>>, k: string): (r: Option<V>)
    ensures r.None? <==> !HasKey(es, k)
    ensures r.Some? ==> exists i :: 0 <= i < |es| && es[i] == Entry(k, r.value)
  {
    if es == [] then None
    else if es[0].key == k then Some(es[0].value)
    else
      var r := Get(es[1..], k);
      assert Keys(es) == [es[0].key] + Keys(es[1..]);
      assert r.Some? ==> exists i :: 0 <= i < |es[1..]| && es[1..][i] == Entry(k, r.value);
      r
  }

  /** `$array[$k] = $v`. */
  function Put<V>(es: seq<Entry<V>>, k: string, v: V): (r: seq<Entry<V>>)
    ensures HasKey(es, k) ==> |r| == |es|
    ensures !HasKey(es, k) ==> r == es + [Entry(k, v)]
  {
    if es == [] then [Entry(k, v)]
    else if es[0].key == k then [Entry(k, v)] + es[1..]
    else
      assert Keys(es) == [es[0].key] + Keys(es[1..]);
      [es[0]] + Put(es[1..], k, v)
  }

  /** Writing a key keeps the order of the keys, appending a new one at the end. */
  lemma {:induction false} PutKeys<V>(es: seq<Entry<V>>, k: string, v: V)
    ensures Keys(Put(es, k, v)) == if HasKey(es, k) then Keys(es) else Keys(es) + [k]
  {
    if es == [] {
      KeysCons(Entry(k, v), []);
    } else {
      var rest := es[1..];
      KeysCons(es[0], rest);
      assert [es[0]] + rest == es;
      if es[0].key == k {
        KeysCons(Entry(k, v), rest);
      } else {
        assert HasKey(es, k) == HasKey(rest, k);
        PutKeys(rest, k, v);
        KeysCons(es[0], Put(rest, k, v));
      }
    }
  }

  lemma KeysCons<V>(e: Entry<V>, es: seq<Entry<V>>)
    ensures Keys([e] + es) == [e.key] + Keys(es)
  {
  }

  /** After writing `k`, reading `k` gives the new value and every other key
      reads as before. */
  lemma {:induction false} PutGet<V>(es: seq<Entry<V>>, k: string, v: V, k': string)
    ensures Get(Put(es, k, v), k') == if k' == k then Some(v) else Get(es, k')
  {
    if es != [] && es[0].key != k {
      PutGet(es[1..], k, v, k');
      assert Put(es, k, v)[1..] == Put(es[1..], k, v);
    } else if es != [] {
      assert ([Entry(k, v)] + es[1..])[1..] == es[1..];
    }
  }

  /** Writing keeps the keys unique. */
  lemma PutUnique<V>(es: seq<Entry<V>>, k: string, v: V)
    requires UniqueKeys(es)
    ensures UniqueKeys(Put(es, k, v))
  {
    PutKeys(es, k, v);
    var r := Put(es, k, v);
    forall i, j | 0 <= i < j < |r| ensures r[i].key != r[j].key {
      assert Keys(r)[i] == r[i].key && Keys(r)[j] == r[j].key;
    }
  }

  /** The array a loop `$array[key($x)] = $x` builds over `items`, starting
      from an empty one. */
  function PutAll<V>(items: seq<V>, key: V -> string): (r: seq<Entry<V>>)
    ensures UniqueKeys(r)
    decreases |items|
  {
    if items == [] then []
    else
      var prev := PutAll(items[..|items| - 1], key);
      var x := items[|items| - 1];
      PutUnique(prev, key(x), x);
      Put(prev, key(x), x)
  }

  /** The same loop started from the array `es`. */
  function PutEach<V>(es: seq<Entry<V>>, items: seq<V>, key: V -> string): (r: seq<Entry<V>>)
    decreases |items|
  {
    if items == [] then es
    else
      var x := items[|items| - 1];
      Put(PutEach(es, items[..|items| - 1], key), key(x), x)
  }

  /** One more item written. */
  lemma PutEachSnoc<V>(es: seq<Entry<V>>, items: seq<V>, x: V, key: V -> string)
    ensures PutEach(es, items + [x], key) == Put(PutEach(es, items, key), key(x), x)
  {
    assert (items + [x])[..|items|] == items;
  }

  /** Started from an empty array, the loop builds `PutAll`. */
  lemma {:induction false} PutEachEmpty<V>(items: seq<V>, key: V -> string)
    ensures PutEach([], items, key) == PutAll(items, key)
    decreases |items|
  {
    if items != [] {
      PutEachEmpty(items[..|items| - 1], key);
    }
  }

  /** The last of `items` whose key is `k`: a reference for what the array
      holds at `k`. */
  function LastWithKey<V>(items: seq<V>, key: V -> string, k: string): (r: Option<V>)
    ensures r.None? <==> forall i :: 0 <= i < |items| ==> key(items[i]) != k
    ensures r.Some? ==> key(r.value) == k
    decreases |items|
  {
    if items == [] then None
    else if key(items[|items| - 1]) == k then Some(items[|items| - 1])
    else
      var init := items[..|items| - 1];
      var r := LastWithKey(init, key, k);
      assert forall i :: 0 <= i < |init| ==> init[i] == items[i];
      r
  }

  /** The item found is the one at the last position with key `k`. */
  lemma {:induction false} LastWithKeyPosition<V>(items: seq<V>, key: V -> string, k: string, i: int)
    requires 0 <= i < |items| && key(items[i]) == k
    requires forall j :: i < j < |items| ==> key(items[j]) != k
    ensures LastWithKey(items, key, k) == Some(items[i])
    decreases |items|
  {
    if i < |items| - 1 {
      var init := items[..|items| - 1];
      LastWithKeyPosition(init, key, k, i);
    }
  }

  /** Reading key `k` from the built array gives the last item with that key:
      later writes overwrite earlier ones. */
  lemma {:induction false} PutAllGet<V>(items: seq<V>, key: V -> string, k: string)
    ensures Get(PutAll(items, key), k) == LastWithKey(items, key, k)
    decreases |items|
  {
    if items != [] {
      var init := items[..|items| - 1];
      var x := items[|items| - 1];
      PutAllGet(init, key, k);
      PutGet(PutAll(init, key), key(x), x, k);
    }
  }

  /** The keys `0`, `1`, … that PHP gives an array `usort` has reordered. */
  function Renumber<V>(vs: seq<V>): (es: seq<Entry<V>>)
    ensures Values(es) == vs
    ensures forall i :: 0 <= i < |vs| ==> es[i].key == NatToString(i)
  {
    var es := seq(|vs|, i requires 0 <= i < |vs| => Entry(NatToString(i), vs[i]));
    assert Values(es) == vs;
    es
  }
}
