/**
 * Step 2 of the planner: every column node of the query is attributed to
 * the entry its qualifier names, or, when it names none, to the only entry
 * if there is exactly one (parser/parser.py:120-135).
 */
module Attribution {
  import opened Wrappers
  import opened Text
  import opened Ast
  import opened Scopes

  /**
   * The key a column text is attributed to by its qualifier: the qualifier
   * must be present, non-empty and a key (`if qual and qual in tables`).
   */
  function KnownQualifier(keys: set<string>, text: string): (r: Option<string>)
    ensures r.Some? ==> '.' in text && r.value in keys
  {
    var q := QualifierOf(text);
    if q.Some? && q.value != "" && q.value in keys then q else None
  }

  /**
   * For a column node whose name has no `.`, the key found is the node's
   * own qualifier exactly when that qualifier is present, non-empty and a
   * key; an unqualified node, or one qualified by an unknown or empty
   * name, finds none.
   */
  lemma KnownQualifierOfColumn(keys: set<string>, c: ColumnRef)
    requires '.' !in c.name
    ensures KnownQualifier(keys, ColText(c)).Some? <==> c.qual.Some? && c.qual.value != "" && c.qual.value in keys
    ensures KnownQualifier(keys, ColText(c)).Some? ==> KnownQualifier(keys, ColText(c)) == c.qual
  {
    ColTextQualifier(c);
  }

  /** One pass of the column loop (parser/parser.py:123-135). */
  function AttributeColumn(tables: map<string, Entry>, c: ColumnRef): (r: map<string, Entry>)
    ensures r.Keys == tables.Keys
  {
    var text := ColText(c);
    match KnownQualifier(tables.Keys, text)
    case Some(k) => tables[k := tables[k].(projections := tables[k].projections + {BareName(text)})]
    case None =>
      if |tables| == 1 then
        var only := OnlyKey(tables.Keys);
        tables[only := tables[only].(projections := tables[only].projections + {text})]
      else tables
  }

  /** The dictionary after the columns `cols` have been attributed in order. */
  function Attributed(tables: map<string, Entry>, cols: seq<ColumnRef>): (r: map<string, Entry>)
    ensures r.Keys == tables.Keys
  {
    if |cols| == 0 then tables
    else AttributeColumn(Attributed(tables, cols[..|cols| - 1]), cols[|cols| - 1])
  }

  /** The texts of the columns no qualifier attributes (`unqualified_columns`). */
  function Unresolved(keys: set<string>, cols: seq<ColumnRef>): set<string>
  {
    if |cols| == 0 then {}
    else
      var c := cols[|cols| - 1];
      Unresolved(keys, cols[..|cols| - 1])
      + (if KnownQualifier(keys, ColText(c)).None? then {ColText(c)} else {})
  }

  /** The loop over the column nodes (parser/parser.py:121-135). */
  method AttributeColumns(tables: map<string, Entry>, cols: seq<ColumnRef>)
    returns (result: map<string, Entry>, unqualified: set<string>)
    ensures result == Attributed(tables, cols)
    ensures unqualified == Unresolved(tables.Keys, cols)
  {
    result, unqualified := tables, {};
    var i := 0;
    while i < |cols|
      invariant 0 <= i <= |cols|
      invariant result == Attributed(tables, cols[..i])
      invariant unqualified == Unresolved(tables.Keys, cols[..i])
    {
      var c := cols[i];
      assert cols[..i + 1][..i] == cols[..i];
      assert Attributed(tables, cols[..i + 1]) == AttributeColumn(result, c);
      assert result.Keys == tables.Keys;
      var text := ColText(c);
      var qual := KnownQualifier(result.Keys, text);
      if qual.Some? {
        var k := qual.value;
        result := result[k := result[k].(projections := result[k].projections + {BareName(text)})];
      } else {
        unqualified := unqualified + {text};
        if |result| == 1 {
          var only := OnlyKey(result.Keys);
          result := result[only := result[only].(projections := result[only].projections + {text})];
        }
      }
      i := i + 1;
    }
    assert cols[..i] == cols;
  }

  /**
   * A column whose qualifier is a key adds the text after its first `.` to
   * that entry's projections; no other entry changes.
   */
  lemma AttributeQualified(tables: map<string, Entry>, c: ColumnRef, k: string)
    requires KnownQualifier(tables.Keys, ColText(c)) == Some(k)
    ensures AttributeColumn(tables, c)[k].projections == tables[k].projections + {BareName(ColText(c))}
    ensures forall k' :: k' in tables && k' != k ==> AttributeColumn(tables, c)[k'] == tables[k']
  {
  }

  /**
   * With two or more entries, a column whose qualifier is absent or not a
   * key changes no entry.
   */
  lemma AttributeUnqualifiedMany(tables: map<string, Entry>, c: ColumnRef)
    requires KnownQualifier(tables.Keys, ColText(c)).None?
    requires |tables| >= 2
    ensures AttributeColumn(tables, c) == tables
  {
  }

  /**
   * With exactly one entry, a column whose qualifier is absent or not a key
   * adds its whole text to that entry's projections.
   */
  lemma AttributeUnqualifiedSingle(tables: map<string, Entry>, c: ColumnRef, k: string)
    requires KnownQualifier(tables.Keys, ColText(c)).None?
    requires tables.Keys == {k}
    ensures AttributeColumn(tables, c)[k].projections == tables[k].projections + {ColText(c)}
  {
  }

  /** The bare names of the columns in `cols` whose qualifier is the key `k`. */
  function QualifiedNames(keys: set<string>, cols: seq<ColumnRef>, k: string): set<string>
  {
    set c | c in cols && KnownQualifier(keys, ColText(c)) == Some(k) :: BareName(ColText(c))
  }

  lemma QualifiedNamesSnoc(keys: set<string>, cols: seq<ColumnRef>, c: ColumnRef, k: string)
    ensures QualifiedNames(keys, cols + [c], k)
      == QualifiedNames(keys, cols, k)
       + (if KnownQualifier(keys, ColText(c)) == Some(k) then {BareName(ColText(c))} else {})
  {
    var extra: set<string> :=
      if KnownQualifier(keys, ColText(c)) == Some(k) then {BareName(ColText(c))} else {};
    forall x | x in QualifiedNames(keys, cols + [c], k)
      ensures x in QualifiedNames(keys, cols, k) + extra
    {
      var d :| d in cols + [c] && KnownQualifier(keys, ColText(d)) == Some(k) && x == BareName(ColText(d));
      if d != c {
        assert d in cols;
      }
    }
  }

  /** `unqualified_columns` holds the text of every column no qualifier attributes. */
  lemma {:induction false} UnresolvedSet(keys: set<string>, cols: seq<ColumnRef>)
    ensures Unresolved(keys, cols) == set c | c in cols && KnownQualifier(keys, ColText(c)).None? :: ColText(c)
  {
    if |cols| > 0 {
      var init, c := cols[..|cols| - 1], cols[|cols| - 1];
      UnresolvedSet(keys, init);
      assert cols == init + [c];
      var extra: set<string> := if KnownQualifier(keys, ColText(c)).None? then {ColText(c)} else {};
      forall x | x in set d | d in cols && KnownQualifier(keys, ColText(d)).None? :: ColText(d)
        ensures x in Unresolved(keys, init) + extra
      {
        var d :| d in cols && KnownQualifier(keys, ColText(d)).None? && x == ColText(d);
        if d != c {
          assert d in init;
        }
      }
    }
  }

  /** The projections the entry keyed `k` gains from the columns `cols`. */
  function Gained(keys: set<string>, cols: seq<ColumnRef>, k: string): set<string>
  {
    QualifiedNames(keys, cols, k) + (if keys == {k} then Unresolved(keys, cols) else {})
  }

  /** The projections one column adds to the entry keyed `k`. */
  function Share(keys: set<string>, c: ColumnRef, k: string): set<string>
  {
    match KnownQualifier(keys, ColText(c))
    case Some(q) => if q == k then {BareName(ColText(c))} else {}
    case None => if keys == {k} then {ColText(c)} else {}
  }

  /** What one more column adds to the gain of the entry keyed `k`. */
  lemma GainedSnoc(keys: set<string>, cols: seq<ColumnRef>, c: ColumnRef, k: string)
    ensures Gained(keys, cols + [c], k) == Gained(keys, cols, k) + Share(keys, c, k)
  {
    QualifiedNamesSnoc(keys, cols, c, k);
    assert (cols + [c])[..|cols|] == cols;
  }

  /** One column adds its share to each entry's projections and changes nothing else. */
  lemma AttributeColumnEntry(tables: map<string, Entry>, c: ColumnRef, k: string)
    requires k in tables
    ensures AttributeColumn(tables, c)[k]
      == tables[k].(projections := tables[k].projections + Share(tables.Keys, c, k))
  {
    var keys := tables.Keys;
    match KnownQualifier(keys, ColText(c))
    case Some(q) =>
      AttributeQualified(tables, c, q);
    case None =>
      if keys == {k} {
        AttributeUnqualifiedSingle(tables, c, k);
      } else {
        var others := keys - {k};
        assert others + {k} == keys;
        assert |keys| == |others| + 1;
        AttributeUnqualifiedMany(tables, c);
      }
  }

  /**
   * After attribution, the entry keyed `k` differs only in its projections,
   * which have gained the bare name of every column qualified by `k` and,
   * when `k` is the sole key, the text of every column that no qualifier
   * attributes. With two or more keys such columns reach no entry.
   */
  lemma {:induction false} AttributedEntry(tables: map<string, Entry>, cols: seq<ColumnRef>, k: string)
    requires k in tables
    ensures Attributed(tables, cols)[k]
      == tables[k].(projections := tables[k].projections + Gained(tables.Keys, cols, k))
  {
    var keys := tables.Keys;
    if |cols| == 0 {
      assert QualifiedNames(keys, cols, k) == {};
    } else {
      var init, c := cols[..|cols| - 1], cols[|cols| - 1];
      assert cols == init + [c];
      AttributedEntry(tables, init, k);
      GainedSnoc(keys, init, c, k);
      AttributeColumnEntry(Attributed(tables, init), c, k);
    }
  }
}
