/**
 * Step 1 of the planner: the `tables` dictionary, built from the query's
 * table nodes and keyed by alias (parser/parser.py:87-118).
 */
module Scopes {
  import opened Wrappers
  import opened Text
  import opened Ast

  /**
   * One value of the `tables` dictionary: the table's text, its alias, the
   * column names attributed to it and the predicate texts pushed to it.
   */
  datatype Entry = Entry(originalTable: string, alias: string, projections: set<string>, pushdown: seq<string>)

  /**
   * The key a table node is filed under: the alias the parser reports, or,
   * when that is absent or empty, the last `.`-component of the table text.
   */
  function AliasOf(t: TableRef): string
  {
    if t.alias.Some? && t.alias.value != "" then t.alias.value
    else LastComponent(TableText(t))
  }

  /** The entry a table node starts with: nothing projected, nothing pushed. */
  function NewEntry(t: TableRef): Entry
  {
    Entry(TableText(t), AliasOf(t), {}, [])
  }

  /**
   * The dictionary after the first `|ts|` table nodes have been filed; a
   * later node with an alias already present replaces the earlier entry.
   */
  function Scope(ts: seq<TableRef>): map<string, Entry>
  {
    if |ts| == 0 then map[]
    else
      var t := ts[|ts| - 1];
      Scope(ts[..|ts| - 1])[AliasOf(t) := NewEntry(t)]
  }

  /** The loop over the table nodes (parser/parser.py:88-114). */
  method GatherTables(ts: seq<TableRef>) returns (tables: map<string, Entry>)
    ensures tables == Scope(ts)
  {
    tables := map[];
    var i := 0;
    while i < |ts|
      invariant 0 <= i <= |ts|
      invariant tables == Scope(ts[..i])
    {
      var t := ts[i];
      var tableText := TableText(t);
      var alias := t.alias;
      var key: string;
      if alias.None? || alias.value == "" {
        key := LastComponent(tableText);
      } else {
        key := alias.value;
      }
      tables := tables[key := Entry(tableText, key, {}, [])];
      assert ts[..i + 1][..i] == ts[..i];
      i := i + 1;
    }
    assert ts[..i] == ts;
  }

  /** The keys are exactly the aliases of the table nodes. */
  lemma {:induction false} ScopeKeys(ts: seq<TableRef>)
    ensures Scope(ts).Keys == set i | 0 <= i < |ts| :: AliasOf(ts[i])
  {
    if |ts| > 0 {
      var init := ts[..|ts| - 1];
      ScopeKeys(init);
      assert forall i :: 0 <= i < |init| ==> init[i] == ts[i];
    }
  }

  /** No table node means an empty dictionary, and conversely. */
  lemma ScopeEmpty(ts: seq<TableRef>)
    ensures Scope(ts) == map[] <==> |ts| == 0
  {
    if |ts| > 0 {
      assert AliasOf(ts[|ts| - 1]) in Scope(ts);
    }
  }

  /** The only key of a one-entry dictionary (`next(iter(tables))`). */
  function OnlyKey(keys: set<string>): (k: string)
    requires |keys| == 1
    ensures keys == {k}
  {
    assert forall a, b :: a in keys && b in keys ==> a == b by {
      forall a, b | a in keys && b in keys
        ensures a == b
      {
        var rest := keys - {a};
        assert |rest| == 0;
      }
    }
    var k :| k in keys;
    assert keys == {k};
    k
  }

  /** `ts[i]` is the last table node whose alias is `k`. */
  predicate LastWithAlias(ts: seq<TableRef>, i: int, k: string)
  {
    0 <= i < |ts| && AliasOf(ts[i]) == k && forall j :: i < j < |ts| ==> AliasOf(ts[j]) != k
  }

  /**
   * Every entry is filed under its own alias and starts empty, and it is
   * the entry of the LAST table node with that alias.
   */
  lemma {:induction false} ScopeEntry(ts: seq<TableRef>, k: string)
    requires k in Scope(ts)
    ensures Scope(ts)[k].alias == k
    ensures Scope(ts)[k].projections == {} && Scope(ts)[k].pushdown == []
    ensures exists i :: LastWithAlias(ts, i, k) && Scope(ts)[k].originalTable == TableText(ts[i])
  {
    var n := |ts| - 1;
    var init := ts[..n];
    if AliasOf(ts[n]) == k {
      assert Scope(ts)[k] == NewEntry(ts[n]);
    } else {
      ScopeEntry(init, k);
      var i :| LastWithAlias(init, i, k) && Scope(init)[k].originalTable == TableText(init[i]);
      assert ts[i] == init[i];
      assert forall j :: i < j < n ==> ts[j] == init[j];
      assert LastWithAlias(ts, i, k);
    }
  }

  /** There are never more entries than table nodes ... */
  lemma {:induction false} ScopeSize(ts: seq<TableRef>)
    ensures |Scope(ts)| <= |ts|
  {
    if |ts| > 0 {
      ScopeSize(ts[..|ts| - 1]);
    }
  }

  /**
   * ... and strictly fewer when two table nodes share an alias: the earlier
   * one is overwritten silently, no error is raised.
   */
  lemma {:induction false} DuplicateAliasOverwrites(ts: seq<TableRef>, i: nat, j: nat)
    requires i < j < |ts|
    requires AliasOf(ts[i]) == AliasOf(ts[j])
    ensures |Scope(ts)| < |ts|
  {
    var n := |ts| - 1;
    var init := ts[..n];
    if j == n {
      assert init[i] == ts[i];
      ScopeKeys(init);
      assert AliasOf(ts[n]) in Scope(init);
      ScopeSize(init);
    } else {
      assert init[i] == ts[i] && init[j] == ts[j];
      DuplicateAliasOverwrites(init, i, j);
    }
  }

  /**
   * A table node without an alias is keyed by its own (last) name; for such
   * a node the text rendered back into the FROM clause needs no AS.
   */
  lemma ImplicitAlias(t: TableRef)
    requires t.alias.None?
    requires |t.parts| > 0 && forall i :: 0 <= i < |t.parts| ==> '.' !in t.parts[i]
    ensures AliasOf(t) == t.parts[|t.parts| - 1]
    ensures AliasOf(t) == LastComponent(TableText(t))
  {
    LastComponentOfDotted(t.parts);
  }
}
