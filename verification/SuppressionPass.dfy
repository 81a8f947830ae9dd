/**
 `suppress_contained_matches` as the code runs it: pool by class, collapse equal
 handle sets, index the representatives by handle, look for a proper superset only
 in the bucket of the rarest handle, rebuild the dict. Proved to compute
 `Suppression.Suppressed`.
 */
module SuppressionPass {
  import opened Sorting
  import opened MatchKeys
  import opened ListDicts
  import opened Suppression

  // ---- pooling ------------------------------------------------------------------

  /** `pools` holds exactly the items of the compared slots in `seen`, each once. */
  ghost predicate PoolsOf(out: MatchJson, pools: map<string, seq<Item>>, seen: set<Slot>) {
    && (forall c, it :: c in pools && it in pools[c] ==>
          it.slot in seen && Pooled(out, it.slot) && ClassOf(it.slot.key) == c && it == ItemAt(out, it.slot))
    && (forall c :: c in pools ==> DistinctSlots(pools[c]))
    && (forall s :: s in seen && Pooled(out, s) ==>
          ClassOf(s.key) in pools && ItemAt(out, s) in pools[ClassOf(s.key)])
  }

  ghost predicate DistinctSlots(items: seq<Item>) {
    forall i, j :: 0 <= i < j < |items| ==> items[i].slot != items[j].slot
  }

  function Appended(pools: map<string, seq<Item>>, c: string, it: Item): map<string, seq<Item>> {
    pools[c := (if c in pools then pools[c] else []) + [it]]
  }

  lemma PoolOneMore(out: MatchJson, pools: map<string, seq<Item>>, seen: set<Slot>, s: Slot)
    requires PoolsOf(out, pools, seen) && s !in seen && Pooled(out, s)
    ensures PoolsOf(out, Appended(pools, ClassOf(s.key), ItemAt(out, s)), seen + {s})
  {
    var c := ClassOf(s.key);
    var next := Appended(pools, c, ItemAt(out, s));
    assert ItemAt(out, s) in next[c] by { assert next[c][|next[c]| - 1] == ItemAt(out, s); }
    forall t | t in seen + {s} && Pooled(out, t)
      ensures ClassOf(t.key) in next && ItemAt(out, t) in next[ClassOf(t.key)]
    {
      if t != s && ClassOf(t.key) == c {
        var i :| 0 <= i < |pools[c]| && pools[c][i] == ItemAt(out, t);
        assert next[c][i] == ItemAt(out, t);
      }
    }
  }

  method PoolKey(out: MatchJson, key: string, pools0: map<string, seq<Item>>, ghost seen: set<Slot>)
    returns (pools: map<string, seq<Item>>)
    requires key in out.at && PoolsOf(out, pools0, seen)
    requires forall s :: s in seen ==> s.key != key
    ensures PoolsOf(out, pools, seen + set p: nat | p < |out.at[key]| :: Slot(key, p))
  {
    pools := pools0;
    ghost var done := seen;
    var parsed := ParseMatchKey(key);
    if parsed.Some? {
      var pos := 0;
      while pos < |out.at[key]|
        invariant pos <= |out.at[key]|
        invariant done == seen + set p: nat | p < pos :: Slot(key, p)
        invariant PoolsOf(out, pools, done)
      {
        var handles := out.at[key][pos];
        if handles != [] {
          PoolOneMore(out, pools, done, Slot(key, pos));
          pools := Appended(pools, parsed.value.snake,
                            Item(Slot(key, pos), parsed.value.idx, HandleSet(handles)));
        }
        done := done + {Slot(key, pos)};
        pos := pos + 1;
      }
    }
  }

  method BuildPools(out: MatchJson) returns (pools: map<string, seq<Item>>)
    requires out.Valid()
    ensures PoolsOf(out, pools, AllSlots(out))
  {
    pools := map[];
    ghost var seen: set<Slot> := {};
    var i := 0;
    while i < |out.keys|
      invariant i <= |out.keys|
      invariant forall s :: s in seen <==> s.key in out.keys[..i] && s.pos < |out.at[s.key]|
      invariant PoolsOf(out, pools, seen)
    {
      var key := out.keys[i];
      pools := PoolKey(out, key, pools, seen);
      seen := seen + set p: nat | p < |out.at[key]| :: Slot(key, p);
      i := i + 1;
    }
    assert out.keys[..i] == out.keys;
    assert seen == AllSlots(out);
  }

  // ---- one pool ------------------------------------------------------------------

  function SlotsOf(items: seq<Item>): set<Slot> { set it | it in items :: it.slot }

  ghost predicate Beaten(le: (Item, Item) -> bool, items: seq<Item>, a: Item) {
    exists b :: b in items && BeatsBy(le, b, a)
  }

  /** The first `n` items, grouped by a key. */
  ghost predicate GroupedBy<K(!new)>(key: Item -> K, items: seq<Item>, n: nat, groups: map<K, seq<Item>>)
    requires n <= |items|
  {
    && (forall k :: k in groups ==> groups[k] != [] && DistinctSlots(groups[k]))
    && (forall k, it :: k in groups && it in groups[k] ==> key(it) == k && it in items[..n])
    && (forall it :: it in items[..n] ==> key(it) in groups && it in groups[key(it)])
  }

  lemma AppendDistinct(group: seq<Item>, it: Item)
    requires DistinctSlots(group) && forall x :: x in group ==> x.slot != it.slot
    ensures DistinctSlots(group + [it]) && it in group + [it]
  {
  }

  lemma GroupOneMore<K(!new)>(key: Item -> K, items: seq<Item>, n: nat, groups: map<K, seq<Item>>)
    requires n < |items| && DistinctSlots(items) && GroupedBy(key, items, n, groups)
    ensures var it := items[n];
      var group := if key(it) in groups then groups[key(it)] else [];
      GroupedBy(key, items, n + 1, groups[key(it) := group + [it]])
  {
    var it := items[n];
    var group := if key(it) in groups then groups[key(it)] else [];
    var after := groups[key(it) := group + [it]];
    assert items[..n + 1] == items[..n] + [it];
    assert forall x :: x in items[..n] ==> x.slot != it.slot;
    AppendDistinct(group, it);
    hide DistinctSlots;
    forall x | x in items[..n] ensures key(x) in after && x in after[key(x)] {
      assert x in groups[key(x)];
    }
  }

  function HandlesOf(it: Item): set<string> { it.handles }

  ghost predicate Grouped(items: seq<Item>, n: nat, bySet: map<set<string>, seq<Item>>)
    requires n <= |items|
  {
    GroupedBy(HandlesOf, items, n, bySet)
  }

  method GroupBySet(items: seq<Item>) returns (bySet: map<set<string>, seq<Item>>)
    requires DistinctSlots(items)
    ensures Grouped(items, |items|, bySet)
  {
    bySet := map[];
    var n := 0;
    while n < |items|
      invariant n <= |items| && Grouped(items, n, bySet)
    {
      GroupOneMore(HandlesOf, items, n, bySet);
      hide GroupedBy;
      var it := items[n];
      bySet := bySet[it.handles := (if it.handles in bySet then bySet[it.handles] else []) + [it]];
      n := n + 1;
    }
  }

  /** The order of the sort key: total, and antisymmetric on slots. */
  ghost predicate SlotOrder(le: (Item, Item) -> bool) {
    && TotalPreorder(le)
    && forall a, b :: le(a, b) && le(b, a) ==> a.slot == b.slot
  }

  /** `r` comes first among the items with its handle set. */
  ghost predicate IsRep(le: (Item, Item) -> bool, items: seq<Item>, r: Item) {
    r in items && forall it :: it in items && it.handles == r.handles ==> le(r, it)
  }

  ghost function Reps(le: (Item, Item) -> bool, items: seq<Item>): set<Item> {
    set it | it in items && IsRep(le, items, it)
  }

  /** State of the collapse, with `firsts` the representatives, once the groups outside `todo` are done. */
  ghost predicate Collapsed(firsts: set<Item>, items: seq<Item>, todo: set<set<string>>,
                            reps: seq<Item>, removed: set<Slot>) {
    && (forall r :: r in reps ==> r in firsts && r.handles !in todo)
    && (forall it :: it in items && it.handles !in todo ==> exists r :: r in reps && r.handles == it.handles)
    && (forall i, j :: 0 <= i < j < |reps| ==> reps[i].handles != reps[j].handles)
    && removed <= SlotsOf(items)
    && (forall it :: it in items ==> (it.slot in removed <==> it.handles !in todo && it !in firsts))
  }

  lemma CollapseOneGroup(firsts: set<Item>, items: seq<Item>, todo: set<set<string>>, hs: set<string>,
                         group: seq<Item>, reps: seq<Item>, removed: set<Slot>)
    requires DistinctSlots(items)
    requires Collapsed(firsts, items, todo, reps, removed) && hs in todo
    requires |group| > 0 && group[0].handles == hs && group[0] in firsts
    requires forall it :: it in group[1..] <==> it in items && it.handles == hs && it !in firsts
    ensures Collapsed(firsts, items, todo - {hs}, reps + [group[0]], removed + SlotsOf(group[1..]))
  {
    var next := reps + [group[0]];
    assert next[|reps|] == group[0];
    forall it | it in items && it.handles !in todo - {hs}
      ensures exists r :: r in next && r.handles == it.handles
    {
      if it.handles != hs {
        var r :| r in reps && r.handles == it.handles;
        assert r in next;
      }
    }
    forall it | it in items
      ensures it.slot in SlotsOf(group[1..]) <==> it in group[1..]
    {
    }
  }

  /** Sorts each group, keeps its first item and drops the rest. */
  method CollapseDuplicates(le: (Item, Item) -> bool, items: seq<Item>)
    returns (reps: seq<Item>, removed: set<Slot>)
    requires SlotOrder(le) && DistinctSlots(items)
    ensures Collapsed(Reps(le, items), items, {}, reps, removed)
  {
    var bySet := GroupBySet(items);
    assert items[..|items|] == items;
    reps, removed := [], {};
    var todo := bySet.Keys;
    while todo != {}
      invariant todo <= bySet.Keys
      invariant Collapsed(Reps(le, items), items, todo, reps, removed)
      decreases todo
    {
      var hs :| hs in todo;
      var group := Sort(le, bySet[hs]);
      GroupHead(le, items, bySet, hs);
      CollapseOneGroup(Reps(le, items), items, todo, hs, group, reps, removed);
      removed := removed + SlotsOf(group[1..]);
      reps := reps + [group[0]];
      todo := todo - {hs};
    }
  }

  /** In a sorted group, the head is the representative and nothing after it is. */
  lemma GroupHead(le: (Item, Item) -> bool, items: seq<Item>, bySet: map<set<string>, seq<Item>>, hs: set<string>)
    requires SlotOrder(le)
    requires DistinctSlots(items) && Grouped(items, |items|, bySet) && hs in bySet
    ensures |Sort(le, bySet[hs])| > 0
    ensures var group := Sort(le, bySet[hs]);
            && group[0].handles == hs && group[0] in Reps(le, items)
            && forall it :: it in group[1..] <==> it in items && it.handles == hs && it !in Reps(le, items)
  {
    assert items[..|items|] == items;
    var group := Sort(le, bySet[hs]);
    SortIsSortedPermutation(le, bySet[hs]);
    SortKeepsDistinct(le, bySet[hs]);
    forall it | it in items && it.handles == hs
      ensures it in group && le(group[0], it)
      ensures it in group[1..] <==> it != group[0]
    {
      var k :| 0 <= k < |group| && group[k] == it;
      if k > 0 { assert group[1..][k - 1] == it; }
    }
    forall it | it in items && it.handles == hs
      ensures IsRep(le, items, it) <==> it == group[0]
    {
      if IsRep(le, items, it) {
        assert group[0] in items && le(it, group[0]) && le(group[0], it);
      }
    }
  }

  lemma SortKeepsDistinct(le: (Item, Item) -> bool, xs: seq<Item>)
    requires SlotOrder(le) && DistinctSlots(xs)
    ensures DistinctSlots(Sort(le, xs))
  {
    SortIsSortedPermutation(le, xs);
    var ys := Sort(le, xs);
    forall i, j | 0 <= i < j < |ys| ensures ys[i].slot != ys[j].slot {
      assert ys[i] in xs && ys[j] in xs;
      var a :| 0 <= a < |xs| && xs[a] == ys[i];
      OnceInMultiset(xs, a);
      if ys[i] == ys[j] {
        OccursTwice(ys, i, j);
      }
    }
  }

  lemma OnceInMultiset(xs: seq<Item>, a: nat)
    requires DistinctSlots(xs) && a < |xs|
    ensures multiset(xs)[xs[a]] == 1
  {
    assert xs == xs[..a] + [xs[a]] + xs[a + 1..];
    assert xs[a] !in xs[..a] && xs[a] !in xs[a + 1..];
    assert multiset(xs) == multiset(xs[..a]) + multiset{xs[a]} + multiset(xs[a + 1..]);
  }

  function Bucket(index: map<string, seq<nat>>, h: string): seq<nat> {
    if h in index then index[h] else []
  }

  /** Bucket `h` lists the representatives below `n` that hold `h`, and `n` itself when `h` is in `part`. */
  ghost predicate Indexes(reps: seq<Item>, n: nat, part: set<string>, index: map<string, seq<nat>>)
    requires n <= |reps|
  {
    forall h, j: nat :: j in Bucket(index, h) <==> HoldsAt(reps, n, part, h, j)
  }

  predicate HoldsAt(reps: seq<Item>, n: nat, part: set<string>, h: string, j: nat)
    requires n <= |reps|
  {
    (j < n && h in reps[j].handles) || (j == n && h in part)
  }

  method IndexByHandle(reps: seq<Item>) returns (index: map<string, seq<nat>>)
    ensures Indexes(reps, |reps|, {}, index)
  {
    index := map[];
    var ri := 0;
    while ri < |reps|
      invariant ri <= |reps| && Indexes(reps, ri, {}, index)
    {
      var todo := reps[ri].handles;
      while todo != {}
        invariant todo <= reps[ri].handles
        invariant Indexes(reps, ri, reps[ri].handles - todo, index)
        decreases todo
      {
        var h :| h in todo;
        ghost var before := index;
        index := index[h := Bucket(index, h) + [ri]];
        assert forall g :: g != h ==> Bucket(index, g) == Bucket(before, g);
        assert forall j :: j in Bucket(index, h) <==> j in Bucket(before, h) || j == ri;
        todo := todo - {h};
      }
      ri := ri + 1;
    }
  }

  /** A handle with the shortest posting list. */
  method RarestHandle(handles: set<string>, index: map<string, seq<nat>>) returns (rarest: string)
    requires handles != {} && handles <= index.Keys
    ensures rarest in handles
    ensures forall h :: h in handles ==> |index[rarest]| <= |index[h]|
  {
    rarest :| rarest in handles;
    var todo := handles - {rarest};
    while todo != {}
      invariant todo <= handles && rarest in handles
      invariant forall h :: h in handles - todo ==> |index[rarest]| <= |index[h]|
      decreases todo
    {
      var h :| h in todo;
      if |index[h]| < |index[rarest]| { rarest := h; }
      todo := todo - {h};
    }
  }

  ghost predicate HasLarger(reps: seq<Item>, r: Item) {
    exists q :: q in reps && r.handles < q.handles
  }

  /** Drops each representative whose rarest bucket holds a proper superset. */
  method SubsetsAmongReps(reps: seq<Item>) returns (removed: set<Slot>)
    requires DistinctSlots(reps) && forall r :: r in reps ==> r.handles != {}
    ensures removed <= SlotsOf(reps)
    ensures forall r :: r in reps ==> (r.slot in removed <==> HasLarger(reps, r))
  {
    var index := IndexByHandle(reps);
    removed := {};
    var i := 0;
    while i < |reps|
      invariant i <= |reps|
      invariant removed <= SlotsOf(reps[..i])
      invariant forall k :: 0 <= k < i ==> (reps[k].slot in removed <==> HasLarger(reps, reps[k]))
    {
      var r := reps[i];
      forall h | h in r.handles ensures h in index {
        assert HoldsAt(reps, |reps|, {}, h, i);
      }
      var rarest := RarestHandle(r.handles, index);
      var found := HasSuperset(reps, i, index, rarest);
      assert r.slot !in SlotsOf(reps[..i]);
      if found { removed := removed + {r.slot}; }
      assert reps[..i + 1] == reps[..i] + [r];
      i := i + 1;
    }
    assert reps[..i] == reps;
  }

  method HasSuperset(reps: seq<Item>, i: nat, index: map<string, seq<nat>>, h: string) returns (found: bool)
    requires i < |reps| && Indexes(reps, |reps|, {}, index)
    requires h in reps[i].handles && h in index
    ensures found <==> HasLarger(reps, reps[i])
  {
    var bucket := index[h];
    assert bucket == Bucket(index, h);
    assert forall c :: 0 <= c < |bucket| ==> bucket[c] < |reps| by {
      forall c | 0 <= c < |bucket| ensures bucket[c] < |reps| {
        assert bucket[c] in Bucket(index, h);
        assert HoldsAt(reps, |reps|, {}, h, bucket[c]);
      }
    }
    var b := 0;
    while b < |bucket|
      invariant b <= |bucket|
      invariant forall c :: 0 <= c < b ==> !(reps[i].handles < reps[bucket[c]].handles)
    {
      var j := bucket[b];
      if j != i && reps[i].handles < reps[j].handles { return true; }
      b := b + 1;
    }
    forall q | q in reps && h in q.handles ensures !(reps[i].handles < q.handles) {
      var j :| 0 <= j < |reps| && reps[j] == q;
      assert HoldsAt(reps, |reps|, {}, h, j);
    }
    return false;
  }

  /** The inverted index removes exactly the items the quadratic scan would. */
  method RedundantInPool(le: (Item, Item) -> bool, items: seq<Item>) returns (removed: set<Slot>)
    requires SlotOrder(le) && DistinctSlots(items)
    requires forall it :: it in items ==> it.handles != {}
    ensures removed <= SlotsOf(items)
    ensures forall a :: a in items ==> (a.slot in removed <==> Beaten(le, items, a))
  {
    var reps, duplicates := CollapseDuplicates(le, items);
    forall i, j | 0 <= i < j < |reps| ensures reps[i].slot != reps[j].slot {
      assert reps[i] in Reps(le, items) && reps[j] in Reps(le, items);
    }
    var subsets := SubsetsAmongReps(reps);
    removed := duplicates + subsets;
    forall a | a in items ensures a.slot in removed <==> Beaten(le, items, a) {
      BeatenIffDropped(le, items, reps, duplicates, subsets, a);
    }
  }

  lemma BeatenIffDropped(le: (Item, Item) -> bool, items: seq<Item>, reps: seq<Item>,
                         duplicates: set<Slot>, subsets: set<Slot>, a: Item)
    requires SlotOrder(le) && DistinctSlots(items) && a in items
    requires Collapsed(Reps(le, items), items, {}, reps, duplicates)
    requires subsets <= SlotsOf(reps)
    requires forall r :: r in reps ==> (r.slot in subsets <==> HasLarger(reps, r))
    ensures a.slot in duplicates + subsets <==> Beaten(le, items, a)
  {
    if IsRep(le, items, a) {
      var r :| r in reps && r.handles == a.handles;
      assert le(r, a) && le(a, r) && r == a;
      if Beaten(le, items, a) {
        var b :| b in items && BeatsBy(le, b, a);
        assert !(b.handles == a.handles && b.slot != a.slot && le(b, a));
        var q :| q in reps && q.handles == b.handles;
        assert HasLarger(reps, a);
      }
    } else {
      var b :| b in items && b.handles == a.handles && !le(a, b);
      assert BeatsBy(le, b, a);
    }
  }

  // ---- the whole pass --------------------------------------------------------------

  lemma PoolVerdict(out: MatchJson, pools: map<string, seq<Item>>, c: string, s: Slot)
    requires PoolsOf(out, pools, AllSlots(out)) && c in pools
    requires Pooled(out, s) && ClassOf(s.key) == c
    ensures ItemAt(out, s) in pools[c]
    ensures Redundant(out, s) <==> Beaten(ItemLe, pools[c], ItemAt(out, s))
  {
    assert s == Slot(s.key, s.pos) && s in AllSlots(out);
    if Redundant(out, s) {
      var t :| BeatsIn(out, t, s);
      assert t == Slot(t.key, t.pos) && t in AllSlots(out);
      assert ItemAt(out, t) in pools[c] && BeatsBy(ItemLe, ItemAt(out, t), ItemAt(out, s));
    }
    if Beaten(ItemLe, pools[c], ItemAt(out, s)) {
      var b :| b in pools[c] && BeatsBy(ItemLe, b, ItemAt(out, s));
      assert BeatsIn(out, b.slot, s);
    }
  }

  /** `removed` is right for the classes outside `todo`. */
  ghost predicate RemovedOutside(out: MatchJson, todo: set<string>, removed: set<Slot>) {
    && (forall s :: s in removed ==> Pooled(out, s))
    && (forall s :: Pooled(out, s) ==> (s in removed <==> ClassOf(s.key) !in todo && Redundant(out, s)))
  }

  lemma RemovedOneMore(out: MatchJson, pools: map<string, seq<Item>>, todo: set<string>, c: string,
                       removed: set<Slot>, beaten: set<Slot>)
    requires PoolsOf(out, pools, AllSlots(out)) && c in pools && c in todo
    requires RemovedOutside(out, todo, removed)
    requires beaten <= SlotsOf(pools[c])
    requires forall a :: a in pools[c] ==> (a.slot in beaten <==> Beaten(ItemLe, pools[c], a))
    ensures RemovedOutside(out, todo - {c}, removed + beaten)
  {
    forall s | Pooled(out, s)
      ensures s in removed + beaten <==> ClassOf(s.key) !in todo - {c} && Redundant(out, s)
    {
      if ClassOf(s.key) == c {
        PoolVerdict(out, pools, c, s);
      }
    }
  }

  method FindRedundant(out: MatchJson) returns (removed: set<Slot>)
    requires out.Valid()
    ensures forall s :: s in removed <==> Redundant(out, s)
  {
    var pools := BuildPools(out);
    removed := {};
    var todo := pools.Keys;
    forall s | Pooled(out, s) ensures ClassOf(s.key) in todo {
      assert s == Slot(s.key, s.pos) && s in AllSlots(out);
    }
    ItemLeOrder();
    while todo != {}
      invariant todo <= pools.Keys && RemovedOutside(out, todo, removed)
      decreases todo
    {
      var c :| c in todo;
      forall it | it in pools[c] ensures it.handles != {} {
        assert out.at[it.slot.key][it.slot.pos][0] in it.handles;
      }
      var beaten := RedundantInPool(ItemLe, pools[c]);
      RemovedOneMore(out, pools, todo, c, removed, beaten);
      removed := removed + beaten;
      todo := todo - {c};
    }
  }

  method KeepInstances(out: MatchJson, key: string, removed: set<Slot>) returns (kept: seq<Instance>)
    requires key in out.at
    ensures kept == KeptAll(out, removed, key)
  {
    kept := [];
    var pos := 0;
    while pos < |out.at[key]|
      invariant pos <= |out.at[key]| && kept == Kept(out, removed, key, pos)
    {
      if Slot(key, pos) !in removed { kept := kept + [out.at[key][pos]]; }
      pos := pos + 1;
    }
  }

  method RebuildWithout(out: MatchJson, removed: set<Slot>) returns (result: MatchJson)
    requires out.Valid()
    ensures result == Without(out, removed)
  {
    result := ListDict([], map[]);
    var i := 0;
    while i < |out.keys|
      invariant i <= |out.keys|
      invariant result == WithoutUpTo(out, removed, i)
    {
      var key := out.keys[i];
      var kept := KeepInstances(out, key, removed);
      if kept != [] {
        result := ListDict(result.keys + [key], result.at[key := kept]);
      }
      i := i + 1;
    }
  }

  /** The pass, with the module switch `CONTAINED_SUPPRESSION_ENABLED` as `enabled`. */
  method SuppressContainedMatches(enabled: bool, out: MatchJson) returns (result: MatchJson)
    requires out.Valid()
    ensures result == if enabled then Suppressed(out) else out
    ensures enabled ==> forall k :: k in out.at ==> exists ps :: KeepsUnder(out, result, k, ps)
    ensures forall k :: k in result.at ==> k in out.at
  {
    if !enabled { return out; }
    forall k | k in out.at ensures exists ps :: KeepsUnder(out, Suppressed(out), k, ps) {
      var ps := StayingIsKept(out, k);
    }
    var removed := FindRedundant(out);
    assert removed == RedundantSlots(out);
    if removed == {} { return out; }
    result := RebuildWithout(out, removed);
  }
}
