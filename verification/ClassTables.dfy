/** The class tables of app/library.py that the match pipelines consult. */
module ClassTables {
  import opened Wrappers
  import opened MatchKeys

  /** `constraints` is CLASS_VIEW_CONSTRAINTS, `jsonKey` is CLASS_JSON_KEY. */
  datatype Tables = Tables(constraints: map<string, set<View>>, jsonKey: map<string, string>) {
    /** Two classes never share a JSON key. */
    ghost predicate Valid() {
      (forall c, d :: c in jsonKey && d in jsonKey && jsonKey[c] == jsonKey[d] ==> c == d)
    }

    function JsonKey(cls: string): string {
      if cls in jsonKey then jsonKey[cls] else cls
    }

    /** The class of each key text. */
    function Reversed(): map<string, string>
      requires Valid()
    {
      map c | c in jsonKey :: jsonKey[c] := c
    }

    /** The display name of a JSON class text. */
    function Display(snake: string): string
      requires Valid()
    {
      if snake in Reversed() then Reversed()[snake] else snake
    }

    predicate IsAllowedView(cls: string, view: Option<View>) {
      cls in constraints ==> view.Some? && view.value in constraints[cls]
    }
  }

  /** A key text is shown as its class, and any other text as itself. */
  lemma DisplayInvertsJsonKey(t: Tables, cls: string, text: string)
    requires t.Valid()
    ensures cls in t.jsonKey ==> t.JsonKey(cls) == t.jsonKey[cls] && t.Display(t.jsonKey[cls]) == cls
    ensures cls !in t.jsonKey ==> t.JsonKey(cls) == cls
    ensures (forall c :: c in t.jsonKey ==> t.jsonKey[c] != text) ==> t.Display(text) == text
  {
  }
}
