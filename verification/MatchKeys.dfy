/**
 The keys of the Match JSON (app/side_regions.py): `<view>.<class>.<idx>` or
 `<class>.<idx>`, how they are written and how they are parsed back.
 */
module MatchKeys {
  import opened Wrappers

  /** The three views; `ViewName` is the prefix text a key carries. */
  datatype View = TopView | BottomView | SideView

  function ViewName(v: View): string {
    match v
    case TopView => "top_view"
    case BottomView => "bottom_view"
    case SideView => "side_view"
  }

  /** Membership in `_VIEW_PREFIXES`. */
  function ViewNamed(word: string): Option<View> {
    if word == "top_view" then Some(TopView)
    else if word == "bottom_view" then Some(BottomView)
    else if word == "side_view" then Some(SideView)
    else None
  }

  datatype ParsedKey = ParsedKey(view: Option<View>, snake: string, idx: int)

  // ---- str.split(".") and ".".join -----------------------------------------

  function JoinDots(parts: seq<string>): string {
    if parts == [] then ""
    else if |parts| == 1 then parts[0]
    else parts[0] + "." + JoinDots(parts[1..])
  }

  function SplitDots(s: string): (parts: seq<string>)
    ensures parts != []
  {
    if s == "" then [""]
    else
      var rest := SplitDots(s[1..]);
      if s[0] == '.' then [""] + rest else [[s[0]] + rest[0]] + rest[1..]
  }

  /** The parts are dotless and joining them gives the text back. */
  lemma {:induction false} JoinOfSplit(s: string)
    ensures JoinDots(SplitDots(s)) == s
    ensures forall p :: p in SplitDots(s) ==> '.' !in p
  {
    if s != "" {
      JoinOfSplit(s[1..]);
      var rest := SplitDots(s[1..]);
      assert s == [s[0]] + s[1..];
      if s[0] == '.' {
        assert JoinDots([""] + rest) == "." + JoinDots(rest);
      } else {
        assert ([[s[0]] + rest[0]] + rest[1..])[1..] == rest[1..];
      }
    }
  }

  lemma {:induction false} SplitOfDotless(s: string)
    requires '.' !in s
    ensures SplitDots(s) == [s]
  {
    if s != "" {
      SplitOfDotless(s[1..]);
      assert s == [s[0]] + s[1..];
    }
  }

  /** A dotless word and a dot in front become the first part. */
  lemma {:induction false} SplitPrepend(word: string, s: string)
    requires '.' !in word
    ensures SplitDots(word + "." + s) == [word] + SplitDots(s)
  {
    var t := word + "." + s;
    if word == "" {
      assert t[1..] == s;
    } else {
      assert t[1..] == word[1..] + "." + s;
      SplitPrepend(word[1..], s);
      assert word == [word[0]] + word[1..];
    }
  }

  /** A dot and a dotless word behind become the last part. */
  lemma {:induction false} SplitAppend(s: string, word: string)
    requires '.' !in word
    ensures SplitDots(s + "." + word) == SplitDots(s) + [word]
  {
    var t := s + "." + word;
    if s == "" {
      assert t[1..] == word;
      SplitOfDotless(word);
    } else {
      assert t[1..] == s[1..] + "." + word;
      SplitAppend(s[1..], word);
      var a, b := SplitDots(s[1..]), SplitDots(t[1..]);
      assert b[1..] == a[1..] + [word];
    }
  }

  // ---- Python's int() on decimal text --------------------------------------

  predicate IsSpace(c: char) {
    c == ' ' || '\t' <= c <= '\r' || (28 as char) <= c <= (31 as char)
  }

  predicate IsDigit(c: char) { '0' <= c <= '9' }

  function Strip(s: string): string {
    if s == "" then ""
    else if IsSpace(s[0]) then Strip(s[1..])
    else if IsSpace(s[|s| - 1]) then Strip(s[..|s| - 1])
    else s
  }

  /** Digits, with single underscores allowed between them. */
  function DigitsValue(s: string): Option<nat> {
    if s == "" || !IsDigit(s[|s| - 1]) then None
    else
      var last := s[|s| - 1] as int - '0' as int;
      if |s| == 1 then Some(last)
      else
        var head := if s[|s| - 2] == '_' then s[..|s| - 2] else s[..|s| - 1];
        match DigitsValue(head)
        case None => None
        case Some(v) => Some(10 * v + last)
  }

  function Signed(negative: bool, v: int): int {
    if negative then -v else v
  }

  function ParseInt(s: string): Option<int> {
    var t := Strip(s);
    if t != "" && t[0] in {'+', '-'} then
      match DigitsValue(t[1..])
      case None => None
      case Some(v) => Some(Signed(t[0] == '-', v))
    else
      match DigitsValue(t)
      case None => None
      case Some(v) => Some(v)
  }

  function Decimal(n: nat): (s: string)
    ensures s != "" && forall c :: c in s ==> IsDigit(c)
  {
    var last := [('0' as int + n % 10) as char];
    if n < 10 then last else Decimal(n / 10) + last
  }

  lemma {:induction false} DigitsOfDecimal(n: nat)
    ensures DigitsValue(Decimal(n)) == Some(n)
  {
    if n >= 10 {
      DigitsOfDecimal(n / 10);
      var s := Decimal(n);
      assert s[..|s| - 1] == Decimal(n / 10);
      assert s[|s| - 2] == Decimal(n / 10)[|s| - 2];
    }
  }

  lemma ParseOfDecimal(n: nat)
    ensures ParseInt(Decimal(n)) == Some(n)
  {
    DigitsOfDecimal(n);
    var s := Decimal(n);
    assert IsDigit(s[0]) && IsDigit(s[|s| - 1]);
    assert Strip(s) == s;
  }

  // ---- parse_match_key ------------------------------------------------------

  function ParseWith(named: string -> Option<View>, key: string): Option<ParsedKey> {
    var parts := SplitDots(key);
    if |parts| < 2 then None
    else
      match ParseInt(parts[|parts| - 1])
      case None => None
      case Some(idx) =>
        var head := parts[..|parts| - 1];
        if |head| >= 2 && named(head[0]).Some? then
          Some(ParsedKey(named(head[0]), JoinDots(head[1..]), idx))
        else
          Some(ParsedKey(None, JoinDots(head), idx))
  }

  function ParseMatchKey(key: string): Option<ParsedKey> {
    ParseWith(ViewNamed, key)
  }

  function BaseKey(snake: string, idx: nat): string { snake + "." + Decimal(idx) }

  /** The key `split_matches_by_side` emits for one template's instances. */
  function EmitKey(view: Option<View>, snake: string, idx: nat): string {
    match view
    case None => BaseKey(snake, idx)
    case Some(v) => ViewName(v) + "." + BaseKey(snake, idx)
  }

  /** `text` is a view name, a dot, and anything. */
  ghost predicate LooksPrefixed(named: string -> Option<View>, text: string) {
    exists w :: named(w).Some? && w + "." <= text
  }

  lemma LooksPrefixedIffSplit(named: string -> Option<View>, text: string)
    requires forall w :: named(w).Some? ==> '.' !in w
    ensures LooksPrefixed(named, text) <==> |SplitDots(text)| >= 2 && named(SplitDots(text)[0]).Some?
  {
    var parts := SplitDots(text);
    JoinOfSplit(text);
    if LooksPrefixed(named, text) {
      var w :| named(w).Some? && w + "." <= text;
      var rest := text[|w| + 1..];
      assert text == w + "." + rest;
      SplitPrepend(w, rest);
    }
    if |parts| >= 2 && named(parts[0]).Some? {
      assert JoinDots(parts) == parts[0] + "." + JoinDots(parts[1..]);
      assert parts[0] + "." <= text;
    }
  }

  lemma SplitOfBaseKey(snake: string, idx: nat)
    ensures SplitDots(BaseKey(snake, idx)) == SplitDots(snake) + [Decimal(idx)]
    ensures ParseInt(Decimal(idx)) == Some(idx)
  {
    ParseOfDecimal(idx);
    assert '.' !in Decimal(idx) by {
      assert !IsDigit('.');
    }
    SplitAppend(snake, Decimal(idx));
  }

  lemma ParseOfUnprefixed(named: string -> Option<View>, snake: string, idx: nat)
    requires forall w :: named(w).Some? ==> '.' !in w
    ensures ParseWith(named, BaseKey(snake, idx)).Some?
    ensures ParseWith(named, BaseKey(snake, idx)) == Some(ParsedKey(None, snake, idx))
       <==> !LooksPrefixed(named, snake)
    ensures ParseWith(named, BaseKey(snake, idx)).value.view.Some? <==> LooksPrefixed(named, snake)
  {
    SplitOfBaseKey(snake, idx);
    LooksPrefixedIffSplit(named, snake);
    JoinOfSplit(snake);
    var parts := SplitDots(snake);
    assert (parts + [Decimal(idx)])[..|parts|] == parts;
  }

  lemma ParseOfPrefixed(named: string -> Option<View>, word: string, snake: string, idx: nat)
    requires named(word).Some? && '.' !in word
    ensures ParseWith(named, word + "." + BaseKey(snake, idx)) == Some(ParsedKey(named(word), snake, idx))
  {
    SplitOfBaseKey(snake, idx);
    JoinOfSplit(snake);
    var parts := SplitDots(snake);
    SplitPrepend(word, BaseKey(snake, idx));
    var all := SplitDots(word + "." + BaseKey(snake, idx));
    assert all == [word] + (parts + [Decimal(idx)]);
    assert all[..|all| - 1] == [word] + parts;
    assert ([word] + parts)[1..] == parts;
  }

  lemma ViewNamesAreDotless(w: string)
    requires ViewNamed(w).Some?
    ensures '.' !in w
  {
  }

  /**
   Parsing inverts emitting for every view, class text and index, except exactly
   when an unprefixed key's class text itself begins with a view name and a dot.
   */
  lemma ParseInvertsEmit(view: Option<View>, snake: string, idx: nat)
    ensures ParseMatchKey(EmitKey(view, snake, idx)).Some?
    ensures ParseMatchKey(EmitKey(view, snake, idx)) == Some(ParsedKey(view, snake, idx))
       <==> (view.Some? || !LooksPrefixed(ViewNamed, snake))
    ensures ParseMatchKey(EmitKey(view, snake, idx)).value.view == view
       <==> (view.Some? || !LooksPrefixed(ViewNamed, snake))
  {
    forall w | ViewNamed(w).Some? ensures '.' !in w { ViewNamesAreDotless(w); }
    match view {
      case None => ParseOfUnprefixed(ViewNamed, snake, idx);
      case Some(v) =>
        assert ViewNamed(ViewName(v)) == Some(v);
        ParseOfPrefixed(ViewNamed, ViewName(v), snake, idx);
    }
  }

  // ---- key texts that look view-prefixed ---------------------------------------------------

  /** The class text a key without a view parses to: `text`, less a view name and a dot in front. */
  function Bare(text: string): string {
    var parts := SplitDots(text);
    if |parts| >= 2 && ViewNamed(parts[0]).Some? then JoinDots(parts[1..]) else text
  }

  /** The class text an emitted key parses to. */
  function ParsedText(view: Option<View>, snake: string): string {
    if view.Some? then snake else Bare(snake)
  }

  /** The view name and the dot of a key, before its class text. */
  function Prefixed(view: Option<View>, snake: string): string {
    if view.Some? then ViewName(view.value) + "." + snake else snake
  }

  /** Stripping a text takes one view name and a dot from it, or nothing when it does not look prefixed. */
  lemma BareStrips(text: string)
    ensures !LooksPrefixed(ViewNamed, text) ==> Bare(text) == text
    ensures LooksPrefixed(ViewNamed, text) ==> exists v :: text == Prefixed(Some(v), Bare(text))
    ensures forall v :: Bare(Prefixed(Some(v), text)) == text
  {
    forall w | ViewNamed(w).Some? ensures '.' !in w { ViewNamesAreDotless(w); }
    LooksPrefixedIffSplit(ViewNamed, text);
    JoinOfSplit(text);
    var parts := SplitDots(text);
    if LooksPrefixed(ViewNamed, text) {
      var v := ViewNamed(parts[0]).value;
      assert ViewName(v) == parts[0];
      assert text == Prefixed(Some(v), Bare(text));
    }
    forall v ensures Bare(Prefixed(Some(v), text)) == text {
      assert ViewNamed(ViewName(v)) == Some(v);
      SplitPrepend(ViewName(v), text);
      assert ([ViewName(v)] + parts)[1..] == parts;
    }
  }

  lemma ParsedTextIs(view: Option<View>, snake: string, idx: nat)
    ensures ParseMatchKey(EmitKey(view, snake, idx)).Some?
    ensures ParseMatchKey(EmitKey(view, snake, idx)).value.snake == ParsedText(view, snake)
    ensures ParseMatchKey(EmitKey(view, snake, idx)).value.idx == idx
  {
    ParseInvertsEmit(view, snake, idx);
    if view.None? {
      SplitOfBaseKey(snake, idx);
      JoinOfSplit(snake);
      var parts := SplitDots(snake);
      var all := SplitDots(BaseKey(snake, idx));
      assert all[..|all| - 1] == parts;
    }
  }

  /** Two keys are the same exactly when their indices are and their view and class texts read the same. */
  lemma SameKeyIff(v: Option<View>, a: string, i: nat, w: Option<View>, b: string, j: nat)
    ensures EmitKey(v, a, i) == EmitKey(w, b, j) <==> i == j && Prefixed(v, a) == Prefixed(w, b)
  {
    EmittedText(v, a, i);
    EmittedText(w, b, j);
    ParsedTextIs(v, a, i);
    ParsedTextIs(w, b, j);
    SplitOfBaseKey(Prefixed(v, a), i);
    SplitOfBaseKey(Prefixed(w, b), j);
    JoinOfSplit(Prefixed(v, a));
    JoinOfSplit(Prefixed(w, b));
    hide SplitDots, Decimal, EmitKey, Prefixed, ParseMatchKey;
    var p, q := SplitDots(Prefixed(v, a)), SplitDots(Prefixed(w, b));
    if EmitKey(v, a, i) == EmitKey(w, b, j) {
      assert (p + [Decimal(i)])[..|p|] == p && (q + [Decimal(j)])[..|q|] == q;
    }
  }

  lemma EmittedText(view: Option<View>, snake: string, idx: nat)
    ensures EmitKey(view, snake, idx) == BaseKey(Prefixed(view, snake), idx)
  {
    if view.Some? {
      assert ViewName(view.value) + "." + BaseKey(snake, idx) == BaseKey(ViewName(view.value) + "." + snake, idx);
    }
  }
}
