/**
 Contained-match suppression (app/side_regions.py, `suppress_contained_matches`):
 the declarative meaning of the pass, and the rarest-handle inverted index that
 computes it.
 */
module Suppression {
  import opened Sorting
  import opened MatchKeys
  import opened ListDicts

  /** The handles of one match instance. */
  type Instance = seq<string>

  type MatchJson = ListDict<string, Instance>

  datatype Slot = Slot(key: string, pos: nat)
  datatype Item = Item(slot: Slot, idx: int, handles: set<string>)

  function HandleSet(inst: Instance): set<string> { set h | h in inst }

  predicate CharLt(a: char, b: char) { a < b }
  predicate StrLe(a: string, b: string) { LexLe(CharLt, a, b) }

  /** The sort key `(idx, key, pos)`. */
  predicate ItemLe(a: Item, b: Item) {
    if a.idx != b.idx then a.idx < b.idx
    else if a.slot.key != b.slot.key then StrLe(a.slot.key, b.slot.key)
    else a.slot.pos <= b.slot.pos
  }

  lemma ItemLeOrder()
    ensures TotalPreorder(ItemLe)
    ensures forall a, b :: ItemLe(a, b) && ItemLe(b, a) ==> a.idx == b.idx && a.slot == b.slot
  {
    forall a, b ensures ItemLe(a, b) || ItemLe(b, a)
      ensures ItemLe(a, b) && ItemLe(b, a) ==> a.idx == b.idx && a.slot == b.slot
    {
      LexLeTotal(CharLt, a.slot.key, b.slot.key);
    }
    forall a, b, c | ItemLe(a, b) && ItemLe(b, c) ensures ItemLe(a, c) {
      if a.idx == b.idx == c.idx {
        LexLeTotal(CharLt, a.slot.key, b.slot.key);
        LexLeTotal(CharLt, b.slot.key, c.slot.key);
        if StrLe(a.slot.key, b.slot.key) && StrLe(b.slot.key, c.slot.key) {
          LexLeTransitive(CharLt, a.slot.key, b.slot.key, c.slot.key);
        }
      }
    }
  }

  // ---- what the pass means ----------------------------------------------------

  /** An instance the pass compares: nonempty, under a key that parses. */
  predicate Pooled(out: MatchJson, s: Slot) {
    && s.key in out.at
    && s.pos < |out.at[s.key]|
    && out.at[s.key][s.pos] != []
    && ParseMatchKey(s.key).Some?
  }

  function ClassOf(key: string): string
    requires ParseMatchKey(key).Some?
  {
    ParseMatchKey(key).value.snake
  }

  function ItemAt(out: MatchJson, s: Slot): Item
    requires Pooled(out, s)
  {
    Item(s, ParseMatchKey(s.key).value.idx, HandleSet(out.at[s.key][s.pos]))
  }

  /** `b` holds strictly more handles, or the same ones and comes first in the sort order. */
  predicate Beats(b: Item, a: Item) {
    BeatsBy(ItemLe, b, a)
  }

  predicate BeatsBy(le: (Item, Item) -> bool, b: Item, a: Item) {
    || a.handles < b.handles
    || (a.handles == b.handles && a.slot != b.slot && le(b, a))
  }

  predicate BeatsIn(out: MatchJson, t: Slot, s: Slot) {
    && Pooled(out, t) && Pooled(out, s)
    && ClassOf(t.key) == ClassOf(s.key)
    && Beats(ItemAt(out, t), ItemAt(out, s))
  }

  /** The naive scan's verdict: some other instance of the class beats `s`. */
  ghost predicate Redundant(out: MatchJson, s: Slot) {
    exists t :: BeatsIn(out, t, s)
  }

  function AllSlots(out: MatchJson): set<Slot> {
    set k, p: nat | k in out.at && p < |out.at[k]| :: Slot(k, p)
  }

  ghost function RedundantSlots(out: MatchJson): (gone: set<Slot>)
    ensures forall s :: s in gone <==> Redundant(out, s)
  {
    set s | s in AllSlots(out) && Redundant(out, s)
  }

  function KeptPositions(gone: set<Slot>, k: string, n: nat): (ps: seq<nat>)
    ensures forall i :: 0 <= i < |ps| ==> ps[i] < n && Slot(k, ps[i]) !in gone
    ensures forall i, j :: 0 <= i < j < |ps| ==> ps[i] < ps[j]
    ensures forall p: nat :: p < n && Slot(k, p) !in gone ==> p in ps
  {
    if n == 0 then []
    else KeptPositions(gone, k, n - 1) + if Slot(k, n - 1) in gone then [] else [n - 1]
  }

  function Kept(out: MatchJson, gone: set<Slot>, k: string, n: nat): (r: seq<Instance>)
    requires k in out.at && n <= |out.at[k]|
  {
    if n == 0 then []
    else Kept(out, gone, k, n - 1) + if Slot(k, n - 1) in gone then [] else [out.at[k][n - 1]]
  }

  function KeptAll(out: MatchJson, gone: set<Slot>, k: string): seq<Instance>
    requires k in out.at
  {
    Kept(out, gone, k, |out.at[k]|)
  }

  lemma {:induction false} KeptByPosition(out: MatchJson, gone: set<Slot>, k: string, n: nat)
    requires k in out.at && n <= |out.at[k]|
    ensures var ps := KeptPositions(gone, k, n);
            && |Kept(out, gone, k, n)| == |ps|
            && forall i :: 0 <= i < |ps| ==> Kept(out, gone, k, n)[i] == out.at[k][ps[i]]
  {
    if n > 0 { KeptByPosition(out, gone, k, n - 1); }
  }

  /** The first `n` keys that keep an instance. */
  function KeptKeys(out: MatchJson, gone: set<Slot>, n: nat): (r: seq<string>)
    requires out.Valid() && n <= |out.keys|
    ensures forall k :: k in r <==> k in out.keys[..n] && KeptAll(out, gone, k) != []
    ensures forall i, j :: 0 <= i < j < |r| ==> r[i] != r[j]
  {
    if n == 0 then []
    else
      assert out.keys[..n] == out.keys[..n - 1] + [out.keys[n - 1]];
      if KeptAll(out, gone, out.keys[n - 1]) == [] then KeptKeys(out, gone, n - 1)
      else KeptKeys(out, gone, n - 1) + [out.keys[n - 1]]
  }

  /** The first `n` keys in their old order, minus the instances in `gone` and the keys left empty. */
  function WithoutUpTo(out: MatchJson, gone: set<Slot>, n: nat): (r: MatchJson)
    requires out.Valid() && n <= |out.keys|
    ensures r.keys == KeptKeys(out, gone, n)
    ensures forall k :: k in r.at <==> k in r.keys
    ensures forall k :: k in r.at ==> r.at[k] == KeptAll(out, gone, k)
  {
    if n == 0 then ListDict([], map[])
    else
      var r := WithoutUpTo(out, gone, n - 1);
      var key := out.keys[n - 1];
      var kept := KeptAll(out, gone, key);
      if kept == [] then r else ListDict(r.keys + [key], r.at[key := kept])
  }

  function Without(out: MatchJson, gone: set<Slot>): (r: MatchJson)
    requires out.Valid()
    ensures r.Valid()
    ensures forall k :: k in r.at <==> k in out.at && KeptAll(out, gone, k) != []
    ensures forall k :: k in r.at ==> r.at[k] == KeptAll(out, gone, k)
  {
    assert out.keys[..|out.keys|] == out.keys;
    WithoutUpTo(out, gone, |out.keys|)
  }

  lemma {:induction false} KeptKeysInOrder(out: MatchJson, gone: set<Slot>, n: nat) returns (ps: seq<nat>)
    requires out.Valid() && n <= |out.keys|
    ensures |ps| == |KeptKeys(out, gone, n)|
    ensures forall i :: 0 <= i < |ps| ==> ps[i] < n && KeptKeys(out, gone, n)[i] == out.keys[ps[i]]
    ensures forall i, j :: 0 <= i < j < |ps| ==> ps[i] < ps[j]
  {
    hide KeptAll;
    if n == 0 {
      ps := [];
    } else {
      ps := KeptKeysInOrder(out, gone, n - 1);
      if KeptAll(out, gone, out.keys[n - 1]) != [] { ps := ps + [n - 1]; }
    }
  }

  /** The keys that stay keep their order. */
  lemma KeysKeepOrder(out: MatchJson, gone: set<Slot>) returns (ps: seq<nat>)
    requires out.Valid()
    ensures |ps| == |Without(out, gone).keys|
    ensures forall i :: 0 <= i < |ps| ==> ps[i] < |out.keys| && Without(out, gone).keys[i] == out.keys[ps[i]]
    ensures forall i, j :: 0 <= i < j < |ps| ==> ps[i] < ps[j]
  {
    ps := KeptKeysInOrder(out, gone, |out.keys|);
  }

  /** The declared result: `out` itself when nothing is redundant, else `out` without the redundant slots. */
  ghost function Suppressed(out: MatchJson): (r: MatchJson)
    requires out.Valid()
    ensures r.Valid()
  {
    var gone := RedundantSlots(out);
    if gone == {} then out else Without(out, gone)
  }

  // ---- what the pass guarantees -----------------------------------------------

  ghost predicate Survives(out: MatchJson, s: Slot) {
    Pooled(out, s) && !Redundant(out, s)
  }

  lemma BeatsIsTransitive(a: Item, b: Item, c: Item)
    requires Beats(a, b) && Beats(b, c)
    requires a.slot == c.slot ==> a == c
    ensures Beats(a, c) && a.slot != c.slot
  {
    ItemLeOrder();
  }

  ghost function Beaters(out: MatchJson, s: Slot): set<Slot> {
    set t | t in AllSlots(out) && BeatsIn(out, t, s)
  }

  /** Every compared instance is contained in a survivor of its class. */
  lemma {:induction false} EveryInstanceIsCovered(out: MatchJson, s: Slot) returns (t: Slot)
    requires Pooled(out, s)
    ensures Survives(out, t) && ClassOf(t.key) == ClassOf(s.key)
    ensures HandleSet(out.at[s.key][s.pos]) <= HandleSet(out.at[t.key][t.pos])
    decreases |Beaters(out, s)|
  {
    if !Redundant(out, s) {
      t := s;
    } else {
      var u :| BeatsIn(out, u, s);
      assert u in Beaters(out, s);
      forall v | v in Beaters(out, u) ensures v in Beaters(out, s) {
        BeatsIsTransitive(ItemAt(out, v), ItemAt(out, u), ItemAt(out, s));
      }
      assert u !in Beaters(out, u);
      StrictSubsetIsSmaller(Beaters(out, u), Beaters(out, s), u);
      t := EveryInstanceIsCovered(out, u);
    }
  }

  lemma StrictSubsetIsSmaller<T>(a: set<T>, b: set<T>, x: T)
    requires a <= b && x in b && x !in a
    ensures |a| < |b|
  {
    assert b == a + (b - a) && x in b - a;
  }

  /** Survivors of one class form an antichain: no survivor's handles include another's. */
  lemma SurvivorsAreIncomparable(out: MatchJson, s: Slot, t: Slot)
    requires Survives(out, s) && Survives(out, t) && s != t
    requires ClassOf(s.key) == ClassOf(t.key)
    ensures !(HandleSet(out.at[s.key][s.pos]) <= HandleSet(out.at[t.key][t.pos]))
  {
    ItemLeOrder();
    var a, b := ItemAt(out, s), ItemAt(out, t);
    assert !BeatsIn(out, t, s) && !BeatsIn(out, s, t);
  }

  /** The order of texts: equal, a proper prefix, or the smaller character at the first difference. */
  ghost predicate TextLeads(a: string, b: string) {
    || a == b
    || (|a| < |b| && a == b[..|a|])
    || exists p: nat :: p < |a| && p < |b| && a[..p] == b[..p] && a[p] < b[p]
  }

  lemma LeadsWithHead(a: string, b: string)
    requires a != [] && b != [] && a[0] == b[0]
    ensures TextLeads(a[1..], b[1..]) <==> TextLeads(a, b)
  {
    var x, y := a[1..], b[1..];
    assert a == [a[0]] + x && b == [a[0]] + y;
    if p: nat :| p < |x| && p < |y| && x[..p] == y[..p] && x[p] < y[p] {
      assert a[..p + 1] == [a[0]] + x[..p] && b[..p + 1] == [a[0]] + y[..p];
      assert a[p + 1] < b[p + 1];
    }
    if p: nat :| p < |a| && p < |b| && a[..p] == b[..p] && a[p] < b[p] {
      assert p > 0 && x[..p - 1] == a[..p][1..] && y[..p - 1] == b[..p][1..];
      assert x[p - 1] < y[p - 1];
    }
    if |x| < |y| { assert b[..|a|] == [a[0]] + y[..|x|] && y[..|x|] == b[..|a|][1..]; }
  }

  lemma {:induction false} StrLeIsTextOrder(a: string, b: string)
    ensures StrLe(a, b) <==> TextLeads(a, b)
  {
    if a != [] && b != [] && a[0] == b[0] {
      StrLeIsTextOrder(a[1..], b[1..]);
      assert a == [a[0]] + a[1..] && b == [b[0]] + b[1..];
      LeadsWithHead(a, b);
    } else if a != [] && b != [] {
      if a[0] < b[0] { assert a[..0] == b[..0]; }
    }
  }

  /** The instance at `t`, under another or the same key, is compared with the one at `s`. */
  ghost predicate Rivals(out: MatchJson, s: Slot, t: Slot)
    requires s.key in out.at && s.pos < |out.at[s.key]|
  {
    && t.key in out.at && t.pos < |out.at[t.key]| && out.at[t.key][t.pos] != []
    && ParseMatchKey(s.key).Some? && ParseMatchKey(t.key).Some?
    && ParseMatchKey(t.key).value.snake == ParseMatchKey(s.key).value.snake
  }

  /** The smaller index, at equal index the earlier key text, under one key the earlier position. */
  ghost predicate ComesFirst(s: Slot, sIdx: int, t: Slot, tIdx: int) {
    && sIdx <= tIdx
    && (sIdx == tIdx ==> TextLeads(s.key, t.key))
    && (s.key == t.key ==> s.pos <= t.pos)
  }

  /**
   What a compared instance must be to stay: no instance of its class holds its handles and more,
   and it comes first among those that hold the same.
   */
  ghost predicate Leads(out: MatchJson, s: Slot)
    requires s.key in out.at && s.pos < |out.at[s.key]|
  {
    var mine := set h | h in out.at[s.key][s.pos];
    forall t: Slot :: Rivals(out, s, t) ==>
      var others := set h | h in out.at[t.key][t.pos];
      && !(mine < others)
      && (mine == others ==> ComesFirst(s, ParseMatchKey(s.key).value.idx, t, ParseMatchKey(t.key).value.idx))
  }

  lemma ItemLeComesFirst(a: Item, b: Item)
    requires a.slot.key == b.slot.key ==> a.idx == b.idx
    ensures ItemLe(a, b) <==> ComesFirst(a.slot, a.idx, b.slot, b.idx)
  {
    StrLeIsTextOrder(a.slot.key, b.slot.key);
    hide StrLe;
  }

  /**
   The survivors are exactly the least (idx, key, pos) representatives of the
   inclusion-maximal handle sets of their class.
   */
  lemma SurvivorsAreLeastMaximal(out: MatchJson, s: Slot)
    requires s.key in out.at && s.pos < |out.at[s.key]|
    requires out.at[s.key][s.pos] != [] && ParseMatchKey(s.key).Some?
    ensures Survives(out, s) <==> Leads(out, s)
  {
    ItemLeOrder();
    var a := ItemAt(out, s);
    forall t: Slot ensures Rivals(out, s, t) <==> Pooled(out, t) && ClassOf(t.key) == ClassOf(s.key) {
    }
    forall t: Slot | Rivals(out, s, t)
      ensures ItemLe(a, ItemAt(out, t)) <==> ComesFirst(s, a.idx, t, ItemAt(out, t).idx)
    {
      ItemLeComesFirst(a, ItemAt(out, t));
    }
    hide ItemLe, ComesFirst;
    if Survives(out, s) {
      forall t: Slot | Rivals(out, s, t)
        ensures !(a.handles < ItemAt(out, t).handles)
        ensures ItemAt(out, t).handles == a.handles ==> ItemLe(a, ItemAt(out, t))
      {
        assert !BeatsIn(out, t, s);
      }
    } else {
      var t :| BeatsIn(out, t, s);
      assert Rivals(out, s, t);
    }
  }

  /** An instance without handles, or under a key that does not parse, is not compared and stays. */
  ghost predicate Stays(out: MatchJson, s: Slot)
    requires s.key in out.at && s.pos < |out.at[s.key]|
  {
    out.at[s.key][s.pos] == [] || ParseMatchKey(s.key).None? || Leads(out, s)
  }

  /** The key keeps exactly its instances that stay, in their order, and goes when none is left of a changed dict. */
  ghost predicate KeepsUnder(out: MatchJson, r: MatchJson, k: string, ps: seq<nat>)
    requires k in out.at
  {
    && (forall i, j :: 0 <= i < j < |ps| ==> ps[i] < ps[j])
    && (forall i :: 0 <= i < |ps| ==> ps[i] < |out.at[k]|)
    && (forall p: nat :: p < |out.at[k]| ==> (p in ps <==> Stays(out, Slot(k, p))))
    && (ps != [] ==> k in r.at) && (ps == [] && r != out ==> k !in r.at)
    && (k in r.at ==>
          && |r.at[k]| == |ps|
          && forall i :: 0 <= i < |ps| ==> r.at[k][i] == out.at[k][ps[i]])
  }

  lemma StaysIff(out: MatchJson, s: Slot)
    requires s.key in out.at && s.pos < |out.at[s.key]|
    ensures Stays(out, s) <==> !Redundant(out, s)
  {
    if Pooled(out, s) { SurvivorsAreLeastMaximal(out, s); }
    hide Leads;
  }

  /** Under one key, the pass keeps the positions that are not redundant. */
  lemma SuppressedUnder(out: MatchJson, k: string)
    requires out.Valid() && k in out.at
    ensures var r, kept := Suppressed(out), KeptAll(out, RedundantSlots(out), k);
      && (kept != [] ==> k in r.at) && (kept == [] && r != out ==> k !in r.at)
      && (k in r.at ==> r.at[k] == kept)
  {
    var gone, n := RedundantSlots(out), |out.at[k]|;
    hide RedundantSlots, WithoutUpTo, KeptPositions;
    if gone == {} {
      KeptWhole(gone, k, n);
      KeptByPosition(out, gone, k, n);
      hide Kept;
      assert KeptAll(out, gone, k) == out.at[k];
    }
    hide KeptAll;
  }

  /** The positions that are not redundant under one key. */
  ghost function Places(out: MatchJson, k: string): seq<nat>
    requires out.Valid() && k in out.at
  {
    KeptPositions(RedundantSlots(out), k, |out.at[k]|)
  }

  lemma PlacesStay(out: MatchJson, k: string)
    requires out.Valid() && k in out.at
    ensures forall i, j :: 0 <= i < j < |Places(out, k)| ==> Places(out, k)[i] < Places(out, k)[j]
    ensures forall p: nat :: p < |out.at[k]| ==> (p in Places(out, k) <==> Stays(out, Slot(k, p)))
  {
    forall p: nat | p < |out.at[k]| ensures p in Places(out, k) <==> Stays(out, Slot(k, p)) {
      hide Stays, KeptPositions;
      StaysIff(out, Slot(k, p));
    }
    hide Stays;
  }

  lemma KeptUnder(out: MatchJson, k: string)
    requires out.Valid() && k in out.at
    ensures var ps, r := Places(out, k), Suppressed(out);
      && (ps != [] ==> k in r.at) && (ps == [] && r != out ==> k !in r.at)
      && (forall i :: 0 <= i < |ps| ==> ps[i] < |out.at[k]|)
      && (k in r.at ==> |r.at[k]| == |ps| && forall i :: 0 <= i < |ps| ==> r.at[k][i] == out.at[k][ps[i]])
  {
    SuppressedUnder(out, k);
    KeptByPosition(out, RedundantSlots(out), k, |out.at[k]|);
    hide Suppressed, KeptPositions, Kept, RedundantSlots;
  }

  /** The result of the pass, key by key, from the dict alone. */
  lemma StayingIsKept(out: MatchJson, k: string) returns (ps: seq<nat>)
    requires out.Valid() && k in out.at
    ensures KeepsUnder(out, Suppressed(out), k, ps)
  {
    hide Places, Suppressed, Stays;
    ps := Places(out, k);
    PlacesStay(out, k);
    KeptUnder(out, k);
  }

  lemma {:induction false} KeptWhole(gone: set<Slot>, k: string, n: nat)
    requires gone == {}
    ensures |KeptPositions(gone, k, n)| == n
    ensures forall p: nat :: p < n ==> KeptPositions(gone, k, n)[p] == p
  {
    if n > 0 { KeptWhole(gone, k, n - 1); }
  }

  /** Where the instance at slot `s` of the filtered dict came from. */
  ghost function Origin(out: MatchJson, gone: set<Slot>, s: Slot): (o: Slot)
    requires out.Valid() && s.key in Without(out, gone).at && s.pos < |Without(out, gone).at[s.key]|
    ensures o.key == s.key && o.key in out.at && o.pos < |out.at[o.key]|
    ensures o !in gone
    ensures out.at[o.key][o.pos] == Without(out, gone).at[s.key][s.pos]
  {
    KeptByPosition(out, gone, s.key, |out.at[s.key]|);
    Slot(s.key, KeptPositions(gone, s.key, |out.at[s.key]|)[s.pos])
  }

  lemma OriginKeepsOrder(out: MatchJson, gone: set<Slot>, s: Slot, t: Slot)
    requires out.Valid()
    requires s.key in Without(out, gone).at && s.pos < |Without(out, gone).at[s.key]|
    requires t.key == s.key && t.pos < |Without(out, gone).at[t.key]|
    ensures Origin(out, gone, s).pos <= Origin(out, gone, t).pos <==> s.pos <= t.pos
  {
    hide Kept, WithoutUpTo, KeptPositions;
    KeptByPosition(out, gone, s.key, |out.at[s.key]|);
    var ps := KeptPositions(gone, s.key, |out.at[s.key]|);
    var i, j := s.pos, t.pos;
    assert i < j ==> ps[i] < ps[j];
    assert j < i ==> ps[j] < ps[i];
  }

  lemma OriginKeepsBeating(out: MatchJson, gone: set<Slot>, t: Slot, s: Slot)
    requires out.Valid() && BeatsIn(Without(out, gone), t, s)
    ensures BeatsIn(out, Origin(out, gone, t), Origin(out, gone, s))
  {
    hide StrLe, WithoutUpTo, KeptPositions, Kept;
    if s.key == t.key {
      OriginKeepsOrder(out, gone, s, t);
      OriginKeepsOrder(out, gone, t, s);
    }
  }

  /** A second pass finds nothing left to remove. */
  lemma NothingLeftToSuppress(out: MatchJson, s: Slot)
    requires out.Valid()
    ensures !Redundant(Suppressed(out), s)
  {
    var gone := RedundantSlots(out);
    if gone != {} && Redundant(Suppressed(out), s) {
      var t :| BeatsIn(Suppressed(out), t, s);
      OriginKeepsBeating(out, gone, t, s);
    }
  }

  lemma SuppressionIsIdempotent(out: MatchJson)
    requires out.Valid()
    ensures Suppressed(Suppressed(out)) == Suppressed(out)
  {
    forall s ensures !Redundant(Suppressed(out), s) { NothingLeftToSuppress(out, s); }
  }

  /** Handle `h` belongs to some compared instance of class `cls`. */
  ghost predicate ClassHolds(out: MatchJson, cls: string, h: string) {
    exists s :: Pooled(out, s) && ClassOf(s.key) == cls && h in out.at[s.key][s.pos]
  }

  /** A surviving instance is still there after the pass. */
  lemma SurvivorIsKept(out: MatchJson, s: Slot) returns (r: Slot)
    requires out.Valid() && s.key in out.at && s.pos < |out.at[s.key]| && !Redundant(out, s)
    ensures r.key == s.key && r.key in Suppressed(out).at && r.pos < |Suppressed(out).at[r.key]|
    ensures Suppressed(out).at[r.key][r.pos] == out.at[s.key][s.pos]
  {
    var gone := RedundantSlots(out);
    if gone == {} {
      r := s;
    } else {
      var ps := KeptPositions(gone, s.key, |out.at[s.key]|);
      assert s == Slot(s.key, s.pos) && s.pos in ps;
      var i :| 0 <= i < |ps| && ps[i] == s.pos;
      KeptByPosition(out, gone, s.key, |out.at[s.key]|);
      r := Slot(s.key, i);
    }
  }

  /** What is left was there before. */
  lemma KeptWasThere(out: MatchJson, s: Slot) returns (o: Slot)
    requires out.Valid() && s.key in Suppressed(out).at && s.pos < |Suppressed(out).at[s.key]|
    ensures o.key == s.key && o.key in out.at && o.pos < |out.at[o.key]| && !Redundant(out, o)
    ensures out.at[o.key][o.pos] == Suppressed(out).at[s.key][s.pos]
  {
    var gone := RedundantSlots(out);
    if gone == {} {
      o := s;
      assert o !in gone;
    } else {
      o := Origin(out, gone, s);
    }
  }

  /** Suppression never changes the union of handles a class holds. */
  lemma UnionIsUnchanged(out: MatchJson, cls: string, h: string)
    requires out.Valid()
    ensures ClassHolds(Suppressed(out), cls, h) <==> ClassHolds(out, cls, h)
  {
    if ClassHolds(out, cls, h) {
      var s :| Pooled(out, s) && ClassOf(s.key) == cls && h in out.at[s.key][s.pos];
      var t := EveryInstanceIsCovered(out, s);
      assert h in HandleSet(out.at[s.key][s.pos]);
      var r := SurvivorIsKept(out, t);
      assert Pooled(Suppressed(out), r);
    }
    if ClassHolds(Suppressed(out), cls, h) {
      var s :| Pooled(Suppressed(out), s) && ClassOf(s.key) == cls && h in Suppressed(out).at[s.key][s.pos];
      var o := KeptWasThere(out, s);
      assert Pooled(out, o);
    }
  }

  // ---- how many instances go ---------------------------------------------------------

  ghost function GoneUnder(gone: set<Slot>, k: string, n: nat): set<Slot> {
    set s | s in gone && s.key == k && s.pos < n
  }

  lemma {:induction false} KeptSize(out: MatchJson, gone: set<Slot>, k: string, n: nat)
    requires k in out.at && n <= |out.at[k]|
    ensures |Kept(out, gone, k, n)| + |GoneUnder(gone, k, n)| == n
  {
    if n == 0 {
      assert GoneUnder(gone, k, 0) == {};
    } else {
      KeptSize(out, gone, k, n - 1);
      var last := Slot(k, n - 1);
      assert GoneUnder(gone, k, n) == GoneUnder(gone, k, n - 1) + if last in gone then {last} else {};
    }
  }

  ghost function GoneUpTo(out: MatchJson, gone: set<Slot>, n: nat): set<Slot>
    requires n <= |out.keys|
  {
    set s | s in gone && s.key in out.keys[..n]
  }

  lemma GoneUpToStep(out: MatchJson, gone: set<Slot>, n: nat)
    requires out.Valid() && 0 < n <= |out.keys|
    requires forall s :: s in gone ==> s.key in out.at && s.pos < |out.at[s.key]|
    ensures var key := out.keys[n - 1];
            |GoneUpTo(out, gone, n)| == |GoneUpTo(out, gone, n - 1)| + |GoneUnder(gone, key, |out.at[key]|)|
  {
    var key := out.keys[n - 1];
    assert out.keys[..n] == out.keys[..n - 1] + [key];
    assert key !in out.keys[..n - 1];
    var before, here := GoneUpTo(out, gone, n - 1), GoneUnder(gone, key, |out.at[key]|);
    assert GoneUpTo(out, gone, n) == before + here;
    assert before !! here;
  }

  lemma WithoutUpToStep(out: MatchJson, gone: set<Slot>, n: nat)
    requires out.Valid() && 0 < n <= |out.keys|
    ensures Size(WithoutUpTo(out, gone, n))
         == Size(WithoutUpTo(out, gone, n - 1)) + |KeptAll(out, gone, out.keys[n - 1])|
  {
    hide Kept;
    var key, r := out.keys[n - 1], WithoutUpTo(out, gone, n - 1);
    var kept := KeptAll(out, gone, key);
    if kept != [] {
      assert key !in r.at;
      assert [] + kept == kept;
      assert WithoutUpTo(out, gone, n) == Extend(r, key, kept);
      SizeOfExtend(r, key, kept);
    }
  }

  lemma {:induction false} WithoutSize(out: MatchJson, gone: set<Slot>, n: nat)
    requires out.Valid() && n <= |out.keys|
    requires forall s :: s in gone ==> s.key in out.at && s.pos < |out.at[s.key]|
    ensures Size(WithoutUpTo(out, gone, n)) + |GoneUpTo(out, gone, n)| == SizeUpTo(out, n)
  {
    hide Kept, Size, GoneUnder;
    if n == 0 {
      assert GoneUpTo(out, gone, 0) == {};
      SizeOfEmpty<string, Instance>();
    } else {
      var key := out.keys[n - 1];
      WithoutSize(out, gone, n - 1);
      KeptSize(out, gone, key, |out.at[key]|);
      GoneUpToStep(out, gone, n);
      WithoutUpToStep(out, gone, n);
    }
  }

  lemma SizeIs(out: MatchJson)
    ensures Size(out) == SizeUpTo(out, |out.keys|)
  {
  }

  lemma RedundantSlotsExist(out: MatchJson)
    ensures forall s :: s in RedundantSlots(out) ==> s.key in out.at && s.pos < |out.at[s.key]|
  {
  }

  /** The pass removes exactly the redundant instances. */
  lemma SizeOfSuppressed(out: MatchJson)
    requires out.Valid()
    ensures Size(Suppressed(out)) + |RedundantSlots(out)| == Size(out)
  {
    hide Redundant, Kept, KeptAll, Size, SizeUpTo;
    var gone := RedundantSlots(out);
    if gone != {} {
      SizeIs(out);
      SizeIs(Without(out, gone));
      RedundantSlotsExist(out);
      WithoutSize(out, gone, |out.keys|);
      assert out.keys[..|out.keys|] == out.keys;
      assert GoneUpTo(out, gone, |out.keys|) == gone;
    }
  }
}
