/**
 Placeholder translation (app/db.py, `_qmark_to_format`): from the `qmark` to the `format`
 parameter style of PEP 249, for drivers that interpolate the whole statement in printf style.
 */
module Placeholders {
  import opened Wrappers

  datatype Bound = Sql(text: string) | NotEnoughArguments | TooManyArguments | UnsupportedDirective

  /** Text put in front of a bound statement; an error stays an error. */
  function Behind(prefix: string, rest: Bound): Bound {
    if rest.Sql? then Sql(prefix + rest.text) else rest
  }

  /** The quote state after reading `ch`. */
  function NextQuote(quote: Option<char>, ch: char): Option<char> {
    match quote
    case Some(q) => if ch == q then None else quote
    case None => if ch == '\'' || ch == '"' then Some(ch) else None
  }

  /** `?` outside quoted literals is a placeholder. */
  predicate IsMark(quote: Option<char>, ch: char) { quote.None? && ch == '?' }

  // ---- what the statement means ------------------------------------------------------------

  /** Direct substitution: each placeholder takes the next argument, all arguments are used. */
  function Substituted(sql: string, quote: Option<char>, args: seq<string>): Bound {
    if sql == "" then
      if args == [] then Sql("") else TooManyArguments
    else if IsMark(quote, sql[0]) then
      if args == [] then NotEnoughArguments
      else Behind(args[0], Substituted(sql[1..], NextQuote(quote, sql[0]), args[1..]))
    else
      Behind([sql[0]], Substituted(sql[1..], NextQuote(quote, sql[0]), args))
  }

  function Marks(sql: string, quote: Option<char>): nat {
    if sql == "" then 0
    else (if IsMark(quote, sql[0]) then 1 else 0) + Marks(sql[1..], NextQuote(quote, sql[0]))
  }

  /** `template % args`: `%%` is a percent sign, `%s` the next argument. */
  function Interpolated(template: string, args: seq<string>): Bound {
    if template == "" then
      if args == [] then Sql("") else TooManyArguments
    else if template[0] != '%' then
      Behind([template[0]], Interpolated(template[1..], args))
    else if |template| == 1 then UnsupportedDirective
    else if template[1] == '%' then Behind("%", Interpolated(template[2..], args))
    else if template[1] == 's' then
      if args == [] then NotEnoughArguments else Behind(args[0], Interpolated(template[2..], args[1..]))
    else UnsupportedDirective
  }

  /** How many `%s` directives a template holds. */
  function Directives(template: string): nat {
    if template == "" then 0
    else if template[0] != '%' then Directives(template[1..])
    else if |template| == 1 then 0
    else (if template[1] == 's' then 1 else 0) + Directives(template[2..])
  }

  // ---- the translator -------------------------------------------------------------------------

  function TranslatedChar(quote: Option<char>, ch: char): string {
    if IsMark(quote, ch) then "%s" else if ch == '%' then "%%" else [ch]
  }

  function Translated(sql: string, quote: Option<char>): string {
    if sql == "" then "" else TranslatedChar(quote, sql[0]) + Translated(sql[1..], NextQuote(quote, sql[0]))
  }

  lemma TranslateOneMore(out: string, sql: string, i: nat, quote: Option<char>)
    requires i < |sql|
    ensures out + Translated(sql[i..], quote) ==
            out + TranslatedChar(quote, sql[i]) + Translated(sql[i + 1..], NextQuote(quote, sql[i]))
  {
    hide TranslatedChar, NextQuote;
    assert sql[i..][1..] == sql[i + 1..];
    assert out + (TranslatedChar(quote, sql[i]) + Translated(sql[i + 1..], NextQuote(quote, sql[i])))
        == out + TranslatedChar(quote, sql[i]) + Translated(sql[i + 1..], NextQuote(quote, sql[i]));
  }

  // ---- where a placeholder may stand --------------------------------------------------------------

  /** The quote state after reading a text. */
  function StateAfter(text: string, quote: Option<char>): Option<char> {
    if text == "" then quote else StateAfter(text[1..], NextQuote(quote, text[0]))
  }

  /** A literal: a quote, characters other than it, and the same quote again. */
  predicate IsLiteral(text: string) {
    |text| >= 2 && (text[0] == '\'' || text[0] == '"') && text[|text| - 1] == text[0]
    && text[0] !in text[1..|text| - 1]
  }

  /** Characters other than quotes, and complete literals, one after another. */
  ghost predicate IsClosed(text: string)
    decreases |text|
  {
    || text == ""
    || (text[0] != '\'' && text[0] != '"' && IsClosed(text[1..]))
    || exists k :: 0 < k <= |text| && IsLiteral(text[..k]) && IsClosed(text[k..])
  }

  lemma {:induction false} InsideLiteral(text: string, q: char)
    requires q == '\'' || q == '"'
    ensures q !in text ==> StateAfter(text, Some(q)) == Some(q)
    ensures forall k :: 0 <= k < |text| && text[k] == q && q !in text[..k] ==>
      StateAfter(text, Some(q)) == StateAfter(text[k + 1..], None)
    decreases text
  {
    if text != "" {
      InsideLiteral(text[1..], q);
      forall k | 0 <= k < |text| && text[k] == q && q !in text[..k]
        ensures StateAfter(text, Some(q)) == StateAfter(text[k + 1..], None)
      {
        if k > 0 {
          assert text[0] in text[..k] && text[1..][k - 1] == q && text[1..][..k - 1] == text[..k][1..];
          assert text[1..][k - 1 + 1..] == text[k + 1..];
        }
      }
    }
  }

  lemma FirstPlace(text: string, q: char) returns (k: nat)
    requires q in text
    ensures k < |text| && text[k] == q && q !in text[..k]
  {
    k := 0;
    while text[k] != q
      invariant k < |text| && q !in text[..k] && exists j :: k <= j < |text| && text[j] == q
      decreases |text| - k
    {
      k := k + 1;
    }
  }

  /** The state is unquoted exactly when the text read is closed. */
  lemma {:induction false} UnquotedIffClosed(text: string)
    ensures StateAfter(text, None) == None <==> IsClosed(text)
    decreases |text|
  {
    if text != "" && text[0] != '\'' && text[0] != '"' {
      UnquotedIffClosed(text[1..]);
    } else if text != "" {
      var q, rest := text[0], text[1..];
      InsideLiteral(rest, q);
      if q in rest {
        var k := FirstPlace(rest, q);
        LiteralEnds(text, k);
        UnquotedIffClosed(text[k + 2..]);
        assert rest[k + 1..] == text[k + 2..];
      } else {
        forall k | 0 < k <= |text| ensures !IsLiteral(text[..k]) {
          if k > 1 { assert text[..k][k - 1] == rest[k - 2] && rest[k - 2] in rest; }
        }
      }
    }
  }

  /** A text has one literal in front at most. */
  lemma LiteralEnds(text: string, k: nat)
    requires text != "" && (text[0] == '\'' || text[0] == '"')
    requires k < |text| - 1 && text[1..][k] == text[0] && text[0] !in text[1..][..k]
    ensures forall n :: 0 < n <= |text| ==> (IsLiteral(text[..n]) <==> n == k + 2)
  {
    var q := text[0];
    assert text[..k + 2][1..k + 1] == text[1..][..k];
    forall n | 0 < n <= |text| && IsLiteral(text[..n]) ensures n == k + 2 {
      assert text[n - 1] == q && text[..n][1..n - 1] == text[1..n - 1];
    }
  }

  lemma {:induction false} StateOneMore(text: string, i: nat, quote: Option<char>)
    requires i < |text|
    ensures StateAfter(text[..i + 1], quote) == NextQuote(StateAfter(text[..i], quote), text[i])
  {
    hide NextQuote;
    if i > 0 {
      assert text[..i + 1][1..] == text[1..][..i] && text[..i][1..] == text[1..][..i - 1];
      StateOneMore(text[1..], i - 1, NextQuote(quote, text[0]));
    } else {
      assert text[..1][1..] == "" && text[..0] == "";
    }
  }

  /** What the grammar makes of the character at `i`. */
  ghost function PieceAt(sql: string, i: nat): string
    requires i < |sql|
  {
    if sql[i] == '?' && IsClosed(sql[..i]) then "%s" else if sql[i] == '%' then "%%" else [sql[i]]
  }

  /** The translation of the first `n` characters, told from what is closed before each of them. */
  ghost function ByGrammar(sql: string, n: nat): string
    requires n <= |sql|
  {
    if n == 0 then "" else ByGrammar(sql, n - 1) + PieceAt(sql, n - 1)
  }

  /** One character on: its piece, whether it is a placeholder, and the state after it. */
  lemma GrammarStep(sql: string, i: nat)
    requires i < |sql|
    ensures var quote, next := StateAfter(sql[..i], None), StateAfter(sql[..i + 1], None);
      && Translated(sql[i..], quote) == PieceAt(sql, i) + Translated(sql[i + 1..], next)
      && Marks(sql[i..], quote) == (if sql[i] == '?' && IsClosed(sql[..i]) then 1 else 0) + Marks(sql[i + 1..], next)
  {
    UnquotedIffClosed(sql[..i]);
    StateOneMore(sql, i, None);
    assert sql[i..][0] == sql[i] && sql[i..][1..] == sql[i + 1..];
    hide IsClosed, StateAfter, NextQuote;
  }

  /** What comes out: `%s` for each `?` with closed text before it, `%%` for each `%`, all else as it was. */
  lemma {:induction false} TranslationByGrammar(sql: string, n: nat)
    requires n <= |sql|
    ensures Translated(sql, None) == ByGrammar(sql, n) + Translated(sql[n..], StateAfter(sql[..n], None))
  {
    if n == 0 {
      assert sql[0..] == sql && sql[..0] == "";
    } else {
      hide Translated, StateAfter, PieceAt;
      TranslationByGrammar(sql, n - 1);
      GrammarStep(sql, n - 1);
    }
  }

  /** The question marks with closed text before them. */
  ghost function MarkPlaces(sql: string, n: nat): set<nat>
    requires n <= |sql|
  {
    set i: nat | i < n && sql[i] == '?' && IsClosed(sql[..i])
  }

  /** These are the placeholders. */
  lemma {:induction false} MarksAre(sql: string, n: nat)
    requires n <= |sql|
    ensures Marks(sql, None) == |MarkPlaces(sql, n)| + Marks(sql[n..], StateAfter(sql[..n], None))
  {
    hide IsClosed, StateAfter, Marks;
    if n == 0 {
      StateOfNothing();
      assert sql[0..] == sql && sql[..0] == "" && MarkPlaces(sql, 0) == {};
    } else {
      MarksAre(sql, n - 1);
      GrammarStep(sql, n - 1);
      assert MarkPlaces(sql, n) ==
        MarkPlaces(sql, n - 1) + if sql[n - 1] == '?' && IsClosed(sql[..n - 1]) then {n - 1} else {};
    }
  }

  lemma StateOfNothing()
    ensures StateAfter("", None) == None
  {
  }

  method QmarkToFormat(sql: string) returns (out: string)
    ensures out == Translated(sql, None)
    ensures out == ByGrammar(sql, |sql|)
    ensures forall args :: Interpolated(out, args) == Substituted(sql, None, args)
  {
    hide Translated, Interpolated, Substituted, ByGrammar, StateAfter, IsClosed;
    out := "";
    var quote: Option<char> := None;
    assert sql[0..] == sql && out + Translated(sql, None) == Translated(sql, None);
    for i := 0 to |sql|
      invariant out + Translated(sql[i..], quote) == Translated(sql, None)
    {
      var ch := sql[i];
      TranslateOneMore(out, sql, i, quote);
      if quote.Some? {
        out := out + if ch == '%' then "%%" else [ch];
        if Some(ch) == quote { quote := None; }
      } else if ch == '\'' || ch == '"' {
        quote := Some(ch);
        out := out + [ch];
      } else if ch == '?' {
        out := out + "%s";
      } else if ch == '%' {
        out := out + "%%";
      } else {
        out := out + [ch];
      }
    }
    assert sql[|sql|..] == "";
    TranslateNothing(quote);
    assert out + "" == out;
    TranslationByGrammar(sql, |sql|);
    TranslateNothing(StateAfter(sql[..|sql|], None));
    assert ByGrammar(sql, |sql|) + "" == ByGrammar(sql, |sql|);
    forall args ensures Interpolated(out, args) == Substituted(sql, None, args) {
      TranslationKeepsMeaning(sql, None, args);
    }
  }

  lemma TranslateNothing(quote: Option<char>)
    ensures Translated("", quote) == ""
  {
  }

  // ---- the laws -----------------------------------------------------------------------------------

  /** Interpolating one translated character, then the rest. */
  lemma InterpolateChar(quote: Option<char>, ch: char, rest: string, args: seq<string>)
    ensures Interpolated(TranslatedChar(quote, ch) + rest, args) ==
            if !IsMark(quote, ch) then Behind([ch], Interpolated(rest, args))
            else if args == [] then NotEnoughArguments
            else Behind(args[0], Interpolated(rest, args[1..]))
    ensures Directives(TranslatedChar(quote, ch) + rest) == (if IsMark(quote, ch) then 1 else 0) + Directives(rest)
  {
    var t := TranslatedChar(quote, ch) + rest;
    assert t[|TranslatedChar(quote, ch)|..] == rest;
  }

  /**
   For every statement and every argument list: interpolating the translation is substituting
   the arguments for the unquoted placeholders, error for error.
   */
  lemma {:induction false} TranslationKeepsMeaning(sql: string, quote: Option<char>, args: seq<string>)
    ensures Interpolated(Translated(sql, quote), args) == Substituted(sql, quote, args)
    decreases sql
  {
    hide TranslatedChar, Interpolated;
    if sql == "" {
      InterpolateNothing(args);
    } else {
      var next := NextQuote(quote, sql[0]);
      InterpolateChar(quote, sql[0], Translated(sql[1..], next), args);
      TranslationKeepsMeaning(sql[1..], next, args);
      if args != [] { TranslationKeepsMeaning(sql[1..], next, args[1..]); }
    }
  }

  lemma InterpolateNothing(args: seq<string>)
    ensures Interpolated("", args) == if args == [] then Sql("") else TooManyArguments
  {
  }

  /** As many `%s` as unquoted `?`. */
  lemma {:induction false} CountIsKept(sql: string, quote: Option<char>)
    ensures Directives(Translated(sql, quote)) == Marks(sql, quote)
    decreases sql
  {
    hide TranslatedChar;
    if sql != "" {
      var next := NextQuote(quote, sql[0]);
      InterpolateChar(quote, sql[0], Translated(sql[1..], next), []);
      CountIsKept(sql[1..], next);
    }
  }

  /** Binding succeeds exactly with one argument per unquoted `?`. */
  lemma {:induction false} BindsExactly(sql: string, quote: Option<char>, args: seq<string>)
    ensures Interpolated(Translated(sql, quote), args).Sql? <==> |args| == Marks(sql, quote)
    ensures |args| < Marks(sql, quote) ==> Interpolated(Translated(sql, quote), args) == NotEnoughArguments
    ensures |args| > Marks(sql, quote) ==> Interpolated(Translated(sql, quote), args) == TooManyArguments
  {
    TranslationKeepsMeaning(sql, quote, args);
    SubstitutedArity(sql, quote, args);
  }

  lemma {:induction false} SubstitutedArity(sql: string, quote: Option<char>, args: seq<string>)
    ensures Substituted(sql, quote, args).Sql? <==> |args| == Marks(sql, quote)
    ensures |args| < Marks(sql, quote) ==> Substituted(sql, quote, args) == NotEnoughArguments
    ensures |args| > Marks(sql, quote) ==> Substituted(sql, quote, args) == TooManyArguments
    decreases sql
  {
    if sql != "" {
      var next := NextQuote(quote, sql[0]);
      SubstitutedArity(sql[1..], next, args);
      if args != [] { SubstitutedArity(sql[1..], next, args[1..]); }
    }
  }

  function QuestionMarks(n: nat): seq<string> { if n == 0 then [] else ["?"] + QuestionMarks(n - 1) }

  /**
   Nothing else of the statement changes: every literal `%` and every quoted `?` survives,
   so binding each placeholder to a question mark gives the statement back.
   */
  lemma {:induction false} TextSurvives(sql: string, quote: Option<char>)
    ensures Interpolated(Translated(sql, quote), QuestionMarks(Marks(sql, quote))) == Sql(sql)
    decreases sql
  {
    hide TranslatedChar, Interpolated;
    if sql == "" {
      InterpolateNothing([]);
    } else {
      var next := NextQuote(quote, sql[0]);
      var args := QuestionMarks(Marks(sql, quote));
      InterpolateChar(quote, sql[0], Translated(sql[1..], next), args);
      TextSurvives(sql[1..], next);
      assert [sql[0]] + sql[1..] == sql;
      if IsMark(quote, sql[0]) { assert args[1..] == QuestionMarks(Marks(sql[1..], next)); }
    }
  }
}
