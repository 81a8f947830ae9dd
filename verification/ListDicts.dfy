/**
 A Python dict of lists, with its iteration order, and the operations the match
 pipelines perform on it: appending to the list under a key, and why grouping entries
 first and merging the groups is the same as filing them one by one.
 */
module ListDicts {
  datatype ListDict<K(!new, ==), V> = ListDict(keys: seq<K>, at: map<K, seq<V>>) {
    ghost predicate Valid() {
      && (forall i, j :: 0 <= i < j < |keys| ==> keys[i] != keys[j])
      && (forall k :: k in keys <==> k in at)
    }
  }

  datatype Emission<K, V> = Emission(key: K, inst: V)

  function Empty<K(==, !new), V>(): ListDict<K, V> { ListDict([], map[]) }

  /** The list under a key, empty when there is none. */
  function Get<K(!new, ==), V>(out: ListDict<K, V>, k: K): seq<V> {
    if k in out.at then out.at[k] else []
  }

  /** Appends to the list under a key; a new key goes last. */
  function Extend<K(!new, ==), V>(out: ListDict<K, V>, key: K, more: seq<V>): ListDict<K, V> {
    ListDict(if key in out.at then out.keys else out.keys + [key], out.at[key := Get(out, key) + more])
  }

  lemma ExtendIsValid<K(!new), V>(out: ListDict<K, V>, key: K, more: seq<V>)
    requires out.Valid()
    ensures Extend(out, key, more).Valid()
  {
  }

  lemma ExtendAt<K(!new), V>(out: ListDict<K, V>, key: K, more: seq<V>, k: K)
    ensures k in Extend(out, key, more).at <==> k in out.at || k == key
    ensures Get(Extend(out, key, more), k) == if k == key then Get(out, k) + more else Get(out, k)
  {
  }

  /** Files the emissions one by one. */
  function AddAll<K(!new, ==), V>(out: ListDict<K, V>, es: seq<Emission<K, V>>): ListDict<K, V>
    decreases |es|
  {
    if es == [] then out
    else
      var last := es[|es| - 1];
      Extend(AddAll(out, es[..|es| - 1]), last.key, [last.inst])
  }

  lemma AddAllNothing<K(!new), V>()
    ensures AddAll<K, V>(Empty(), []) == Empty()
  {
  }

  lemma AddAllStep<K(!new), V>(out: ListDict<K, V>, es: seq<Emission<K, V>>, key: K, inst: V)
    ensures AddAll(out, es + [Emission(key, inst)]) == Extend(AddAll(out, es), key, [inst])
  {
    assert (es + [Emission(key, inst)])[..|es|] == es;
  }

  lemma {:induction false} AddAllIsValid<K(!new), V>(out: ListDict<K, V>, es: seq<Emission<K, V>>)
    requires out.Valid()
    ensures AddAll(out, es).Valid()
    decreases |es|
  {
    if es != [] {
      var last := es[|es| - 1];
      AddAllIsValid(out, es[..|es| - 1]);
      ExtendIsValid(AddAll(out, es[..|es| - 1]), last.key, [last.inst]);
    }
  }

  lemma {:induction false} AddAllConcat<K(!new), V>(out: ListDict<K, V>, a: seq<Emission<K, V>>, b: seq<Emission<K, V>>)
    ensures AddAll(out, a + b) == AddAll(AddAll(out, a), b)
    decreases |b|
  {
    if b == [] {
      assert a + b == a;
    } else {
      assert (a + b)[..|a + b| - 1] == a + b[..|b| - 1];
      AddAllConcat(out, a, b[..|b| - 1]);
    }
  }

  /** Appends the lists of the first `n` keys of another dict. */
  function ExtendAll<K(!new, ==), V>(out: ListDict<K, V>, grouped: ListDict<K, V>, n: nat): ListDict<K, V>
    requires n <= |grouped.keys|
  {
    if n == 0 then out
    else
      var k := grouped.keys[n - 1];
      Extend(ExtendAll(out, grouped, n - 1), k, Get(grouped, k))
  }

  ghost predicate DistinctKeys<K(!new), V>(out: ListDict<K, V>) {
    forall i, j :: 0 <= i < j < |out.keys| ==> out.keys[i] != out.keys[j]
  }

  predicate Among<K(==)>(ks: seq<K>, n: nat, k: K)
    requires n <= |ks|
  {
    n > 0 && (ks[n - 1] == k || Among(ks, n - 1, k))
  }

  lemma {:induction false} AmongIffIn<K>(ks: seq<K>, n: nat, k: K)
    requires n <= |ks|
    ensures Among(ks, n, k) <==> k in ks[..n]
  {
    if n > 0 {
      AmongIffIn(ks, n - 1, k);
      assert ks[..n] == ks[..n - 1] + [ks[n - 1]];
    }
  }

  lemma {:induction false} ExtendAllHas<K(!new), V>(out: ListDict<K, V>, grouped: ListDict<K, V>, n: nat, k: K)
    requires n <= |grouped.keys|
    ensures k in ExtendAll(out, grouped, n).at <==> k in out.at || Among(grouped.keys, n, k)
  {
    if n > 0 { ExtendAllHas(out, grouped, n - 1, k); }
  }

  lemma ExtendAllNothing<K(!new), V>(out: ListDict<K, V>, grouped: ListDict<K, V>)
    ensures ExtendAll(out, grouped, 0) == out
  {
  }

  lemma ExtendAllStep<K(!new), V>(out: ListDict<K, V>, grouped: ListDict<K, V>, n: nat)
    requires 0 < n <= |grouped.keys|
    ensures ExtendAll(out, grouped, n) ==
      Extend(ExtendAll(out, grouped, n - 1), grouped.keys[n - 1], Get(grouped, grouped.keys[n - 1]))
  {
  }

  lemma LastIsNew<K(!new), V>(grouped: ListDict<K, V>, n: nat)
    requires 0 < n <= |grouped.keys| && DistinctKeys(grouped)
    ensures !Among(grouped.keys, n - 1, grouped.keys[n - 1])
  {
    AmongIffIn(grouped.keys, n - 1, grouped.keys[n - 1]);
  }

  /** Which list `ExtendAll` holds at `k`: the old one followed by the grouped one. */
  lemma {:induction false} ExtendAllAt<K(!new), V>(out: ListDict<K, V>, grouped: ListDict<K, V>, n: nat, k: K)
    requires n <= |grouped.keys| && DistinctKeys(grouped)
    ensures Get(ExtendAll(out, grouped, n), k)
         == if Among(grouped.keys, n, k) then Get(out, k) + Get(grouped, k) else Get(out, k)
  {
    hide ExtendAll, Extend, Get, DistinctKeys;
    if n > 0 {
      var g := grouped.keys[n - 1];
      ExtendAllStep(out, grouped, n);
      ExtendAllAt(out, grouped, n - 1, k);
      ExtendAt(ExtendAll(out, grouped, n - 1), g, Get(grouped, g), k);
      LastIsNew(grouped, n);
    } else {
      ExtendAllNothing(out, grouped);
    }
  }

  /** Grouping instances first and merging the groups equals filing them one by one. */
  lemma {:induction false} MergeOfGroups<K(!new), V>(out: ListDict<K, V>, es: seq<Emission<K, V>>)
    ensures var grouped := AddAll(Empty(), es);
            ExtendAll(out, grouped, |grouped.keys|) == AddAll(out, es)
    decreases |es|
  {
    if es != [] {
      var init, last := es[..|es| - 1], es[|es| - 1];
      MergeOfGroups(out, init);
      AddAllIsValid(Empty(), init);
      MergeOneMore(out, AddAll(Empty(), init), last.key, last.inst);
    }
  }

  lemma MergeOneMore<K(!new), V>(out: ListDict<K, V>, grouped: ListDict<K, V>, key: K, inst: V)
    requires grouped.Valid()
    ensures var more := Extend(grouped, key, [inst]);
            ExtendAll(out, more, |more.keys|) == Extend(ExtendAll(out, grouped, |grouped.keys|), key, [inst])
  {
    if key in grouped.at {
      MergeOldKey(out, grouped, key, inst);
    } else {
      assert forall k :: k in grouped.keys ==> k != key;
      var more := Extend(grouped, key, [inst]);
      var n := |grouped.keys|;
      ExtendAllSame(out, grouped, more, n);
      assert ExtendAll(out, more, n + 1) == Extend(ExtendAll(out, more, n), key, Get(more, key));
      assert [] + [inst] == [inst];
    }
  }

  lemma MergeOldKey<K(!new), V>(out: ListDict<K, V>, grouped: ListDict<K, V>, key: K, inst: V)
    requires grouped.Valid() && key in grouped.at
    ensures var more := Extend(grouped, key, [inst]);
            ExtendAll(out, more, |more.keys|) == Extend(ExtendAll(out, grouped, |grouped.keys|), key, [inst])
  {
    var more := Extend(grouped, key, [inst]);
    var n := |grouped.keys|;
    var r, s := ExtendAll(out, more, n), Extend(ExtendAll(out, grouped, n), key, [inst]);
    assert grouped.keys[..n] == grouped.keys;
    AmongIffIn(grouped.keys, n, key);
    ExtendAllHas(out, grouped, n, key);
    ExtendAllKeys(out, grouped, n);
    ExtendAllKeys(out, more, n);
    forall k ensures (k in r.at <==> k in s.at) && Get(r, k) == Get(s, k) {
      MergeOldKeyAt(out, grouped, key, inst, k);
    }
    SameDict(r, s);
  }

  lemma MergeOldKeyAt<K(!new), V>(out: ListDict<K, V>, grouped: ListDict<K, V>, key: K, inst: V, k: K)
    requires DistinctKeys(grouped) && key in grouped.at && Among(grouped.keys, |grouped.keys|, key)
    ensures var more := Extend(grouped, key, [inst]);
            var r := ExtendAll(out, more, |more.keys|);
            var s := Extend(ExtendAll(out, grouped, |grouped.keys|), key, [inst]);
            && (k in r.at <==> k in s.at)
            && Get(r, k) == Get(s, k)
  {
    var more := Extend(grouped, key, [inst]);
    var n := |grouped.keys|;
    ExtendAllHas(out, grouped, n, k);
    ExtendAllHas(out, more, n, k);
    ExtendAllAt(out, grouped, n, k);
    ExtendAllAt(out, more, n, k);
    ExtendAt(ExtendAll(out, grouped, n), key, [inst], k);
    ExtendAt(grouped, key, [inst], k);
    if k == key {
      assert Get(out, k) + (Get(grouped, k) + [inst]) == Get(out, k) + Get(grouped, k) + [inst];
    }
  }

  lemma SameDict<K(!new), V>(a: ListDict<K, V>, b: ListDict<K, V>)
    requires a.keys == b.keys && (forall k :: k in a.at <==> k in b.at)
    requires forall k :: Get(a, k) == Get(b, k)
    ensures a == b
  {
    assert a.at.Keys == b.at.Keys;
    forall k | k in a.at ensures a.at[k] == b.at[k] {
      assert Get(a, k) == Get(b, k);
    }
    assert a.at == b.at;
  }

  /** The keys after extending `out` at the first `n` of `ks`: new ones go to the end. */
  function KeysAfter<K(==, !new), V>(out: ListDict<K, V>, ks: seq<K>, n: nat): seq<K>
    requires n <= |ks|
  {
    if n == 0 then out.keys
    else KeysAfter(out, ks, n - 1) + if ks[n - 1] in out.at || Among(ks, n - 1, ks[n - 1]) then [] else [ks[n - 1]]
  }

  lemma {:induction false} ExtendAllKeys<K(!new), V>(out: ListDict<K, V>, grouped: ListDict<K, V>, n: nat)
    requires n <= |grouped.keys|
    ensures ExtendAll(out, grouped, n).keys == KeysAfter(out, grouped.keys, n)
  {
    if n > 0 {
      var k := grouped.keys[n - 1];
      ExtendAllKeys(out, grouped, n - 1);
      ExtendAllHas(out, grouped, n - 1, k);
      assert ExtendAll(out, grouped, n) == Extend(ExtendAll(out, grouped, n - 1), k, Get(grouped, k));
      hide ExtendAll, Get, Among;
    }
  }

  lemma {:induction false} ExtendAllSame<K(!new), V>(out: ListDict<K, V>, a: ListDict<K, V>, b: ListDict<K, V>, n: nat)
    requires n <= |a.keys| && n <= |b.keys|
    requires forall i :: 0 <= i < n ==> a.keys[i] == b.keys[i] && Get(a, a.keys[i]) == Get(b, a.keys[i])
    ensures ExtendAll(out, a, n) == ExtendAll(out, b, n)
  {
    if n > 0 {
      var k := a.keys[n - 1];
      ExtendAllSame(out, a, b, n - 1);
      var prev := ExtendAll(out, a, n - 1);
      var v := Get(a, k);
      assert v == Get(b, b.keys[n - 1]);
      assert ExtendAll(out, b, n) == Extend(prev, k, v);
    }
  }

  // ---- sizes ------------------------------------------------------------------------

  /** The number of instances under the first `n` keys. */
  function SizeUpTo<K(!new, ==), V>(out: ListDict<K, V>, n: nat): nat
    requires n <= |out.keys|
  {
    if n == 0 then 0 else SizeUpTo(out, n - 1) + |Get(out, out.keys[n - 1])|
  }

  /** The number of instances under all keys. */
  function Size<K(!new, ==), V>(out: ListDict<K, V>): nat { SizeUpTo(out, |out.keys|) }

  lemma {:induction false} SizeUpToExtend<K(!new), V>(out: ListDict<K, V>, key: K, more: seq<V>, n: nat)
    requires n <= |out.keys| && DistinctKeys(out)
    ensures |Extend(out, key, more).keys| >= n
    ensures SizeUpTo(Extend(out, key, more), n) ==
            SizeUpTo(out, n) + if Among(out.keys, n, key) then |more| else 0
  {
    if n > 0 {
      SizeUpToExtend(out, key, more, n - 1);
      AmongIffIn(out.keys, n - 1, out.keys[n - 1]);
    }
  }

  lemma SizeOfEmpty<K(!new), V>()
    ensures Size(Empty<K, V>()) == 0
  {
  }

  lemma SizeOfExtend<K(!new), V>(out: ListDict<K, V>, key: K, more: seq<V>)
    requires out.Valid()
    ensures Size(Extend(out, key, more)) == Size(out) + |more|
  {
    var r, n := Extend(out, key, more), |out.keys|;
    SizeUpToExtend(out, key, more, n);
    AmongIffIn(out.keys, n, key);
    assert out.keys[..n] == out.keys;
    if key !in out.at {
      assert r.keys[n] == key && Size(r) == SizeUpTo(r, n) + |Get(r, key)|;
    } else {
      assert r.keys == out.keys;
    }
  }

  lemma {:induction false} SizeOfAddAll<K(!new), V>(out: ListDict<K, V>, es: seq<Emission<K, V>>)
    requires out.Valid()
    ensures Size(AddAll(out, es)) == Size(out) + |es|
    decreases |es|
  {
    if es != [] {
      var last := es[|es| - 1];
      SizeOfAddAll(out, es[..|es| - 1]);
      AddAllIsValid(out, es[..|es| - 1]);
      SizeOfExtend(AddAll(out, es[..|es| - 1]), last.key, [last.inst]);
    }
  }
}
